/**
 The texts that travel between bridge and robot, and the two sides' key searches: what one side wrote
 as sequence number and command, the other side reads.
 */
module Envelope {
  import opened Decimals
  import opened JsonText
  import opened Wrappers

  // ----- std::string::find -----

  predicate MatchAt(s: string, needle: string, k: nat) {
    k + |needle| <= |s| && s[k..k + |needle|] == needle
  }

  /** First position at or after `from`, or -1. */
  function Find(s: string, needle: string, from: nat): (r: int)
    ensures r == -1 || from <= r <= |s| - |needle|
    decreases |s| - from
  {
    if from + |needle| > |s| then -1
    else if MatchAt(s, needle, from) then from
    else Find(s, needle, from + 1)
  }

  /** It is the first match, and -1 only when there is none. */
  lemma {:induction false} FindFirst(s: string, needle: string, from: nat, k: nat)
    requires from <= k && MatchAt(s, needle, k)
    ensures 0 <= Find(s, needle, from) <= k && MatchAt(s, needle, Find(s, needle, from))
    decreases k - from
  {
    if MatchAt(s, needle, from) {
    } else {
      FindFirst(s, needle, from + 1, k);
    }
  }

  lemma FindIs(s: string, needle: string, from: nat, k: nat)
    requires from <= k && MatchAt(s, needle, k)
    requires forall i: nat :: from <= i < k ==> !MatchAt(s, needle, i)
    ensures Find(s, needle, from) == k
  {
    FindFirst(s, needle, from, k);
  }

  // ----- the robot's extractors -----

  predicate Blank(c: char) {
    c == ' ' || c == '\t'
  }

  function SkipBlanks(s: string, i: nat): (r: nat)
    requires i <= |s|
    ensures i <= r <= |s|
    decreases |s| - i
  {
    if i < |s| && Blank(s[i]) then SkipBlanks(s, i + 1) else i
  }

  function Needle(key: string): string {
    QUOTE + key + QUOTE
  }

  /** Where the value of the first occurrence of the quoted key starts; -1 when there is none. */
  function ValueStart(obj: string, key: string): (r: int)
    ensures -1 <= r <= |obj|
  {
    var k := Find(obj, Needle(key), 0);
    if k < 0 then -1
    else
      var colon := Find(obj, ":", k + |Needle(key)|);
      if colon < 0 then -1 else SkipBlanks(obj, colon + 1)
  }

  function ExtractString(obj: string, key: string): Option<string> {
    var i := ValueStart(obj, key);
    if i < 0 || i >= |obj| || obj[i] != '"' then None else Some(ReadBody(obj[i + 1..]))
  }

  /** What `extract_number` writes: nothing without the key, and zero for a value that is no number. */
  function ExtractNumber(obj: string, key: string): Option<real> {
    var i := ValueStart(obj, key);
    if i < 0 || i >= |obj| then None
    else
      var v := ReadNumber(obj[i..]);
      if v.None? then Some(0.0) else v
  }

  /** So a number behind the first occurrence of the key is read for what it is. */
  lemma NumberExtracted(obj: string, key: string, n: nat, d: string, t: string)
    requires EndsNumber(t) && AllDigits(d)
    requires 0 <= ValueStart(obj, key) < |obj| && obj[ValueStart(obj, key)..] == Decimal(n) + PartText(d, t)
    ensures AllDigits(Decimal(n))
    ensures ExtractNumber(obj, key) == Some(Joined(Decimal(n), d))
  {
    NumberReadBack(n, d, t);
  }

  predicate StartsNumber(c: char) {
    IsDigit(c) || Space(c) || c == '.' || c == '-' || c == '+'
  }

  /** A value that cannot be a number, such as null, a string or an object, is not skipped: zero is written. */
  lemma NoNumberIsZero(obj: string, key: string)
    requires 0 <= ValueStart(obj, key) < |obj| && !StartsNumber(obj[ValueStart(obj, key)])
    ensures ExtractNumber(obj, key) == Some(0.0)
  {
    NotRead(obj[ValueStart(obj, key)..]);
  }

  lemma NotRead(x: string)
    requires x != "" && !StartsNumber(x[0])
    ensures ReadNumber(x) == None
  {
    assert DropSpaces(x) == x;
    assert DigitRun(x) == 0 && x[0..] == x;
  }

  /** Towards zero, then modulo 2^16. */
  function ToUint16(v: real): (r: nat)
    ensures r < 65536
  {
    (if v >= 0.0 then v.Floor else -(-v).Floor) % 65536
  }

  function ExtractSeq(obj: string): (r: nat)
    ensures r < 65536
  {
    var v := ExtractNumber(obj, "seq");
    if v.None? then 0 else ToUint16(v.value)
  }

  method PastBlanks(obj: string, at: nat) returns (i: nat)
    requires at <= |obj|
    ensures i == SkipBlanks(obj, at)
  {
    i := at;
    while i < |obj| && (obj[i] == ' ' || obj[i] == '\t')
      invariant at <= i <= |obj|
      invariant SkipBlanks(obj, at) == SkipBlanks(obj, i)
    {
      i := i + 1;
    }
  }

  /** The part that all the extractors begin with. */
  method FindValue(obj: string, key: string) returns (i: int)
    ensures i == ValueStart(obj, key)
  {
    var needle := QUOTE + key + QUOTE;
    var k := Find(obj, needle, 0);
    if k < 0 {
      return -1;
    }
    var colon := Find(obj, ":", k + |needle|);
    if colon < 0 {
      return -1;
    }
    i := PastBlanks(obj, colon + 1);
  }

  method ExtractStringAt(obj: string, key: string) returns (ok: bool, out: string)
    ensures ok == ExtractString(obj, key).Some?
    ensures ok ==> ExtractString(obj, key) == Some(out)
  {
    out := "";
    var i := FindValue(obj, key);
    if i < 0 || i >= |obj| || obj[i] != '"' {
      return false, out;
    }
    out := ReadString(obj, i + 1);
    return true, out;
  }

  // ----- the bridge's key search -----

  function SkipSpaces(s: string, i: nat): (r: nat)
    requires i <= |s|
    ensures i <= r <= |s|
    decreases |s| - i
  {
    if i < |s| && Space(s[i]) then SkipSpaces(s, i + 1) else i
  }

  /** Where the colon of a key at k should be. */
  function AfterKey(obj: string, key: string, k: nat): nat
    requires k + |Needle(key)| <= |obj|
  {
    SkipSpaces(obj, k + |Needle(key)|)
  }

  predicate IsKeyAt(obj: string, key: string, k: nat)
    requires k + |Needle(key)| <= |obj|
  {
    AfterKey(obj, key, k) < |obj| && obj[AfterKey(obj, key, k)] == ':'
  }

  /** Position of the value of the first occurrence that really is a key (a colon follows); -1 if none. */
  function KeyValue(obj: string, key: string, search: nat): (r: int)
    ensures r == -1 || 0 <= r < |obj|
    decreases |obj| - search
  {
    var k := Find(obj, Needle(key), search);
    if k < 0 then -1
    else if !IsKeyAt(obj, key, k) then KeyValue(obj, key, k + |Needle(key)|)
    else
      var v := SkipSpaces(obj, AfterKey(obj, key, k) + 1);
      if v < |obj| then v else -1
  }

  method SkipWs(s: string, at: nat) returns (i: nat)
    requires at <= |s|
    ensures i == SkipSpaces(s, at)
  {
    i := at;
    while i < |s| && Space(s[i])
      invariant at <= i <= |s| && SkipSpaces(s, at) == SkipSpaces(s, i)
    {
      i := i + 1;
    }
  }

  /** One occurrence of the quoted key: is it a key, and where is its value? */
  method KeyAt(obj: string, key: string, k: nat) returns (isKey: bool, v: nat)
    requires k + |Needle(key)| <= |obj|
    ensures isKey == IsKeyAt(obj, key, k)
    ensures isKey ==> v == SkipSpaces(obj, AfterKey(obj, key, k) + 1)
  {
    v := 0;
    var i := SkipWs(obj, k + |Needle(key)|);
    isKey := i < |obj| && obj[i] == ':';
    if isKey {
      v := SkipWs(obj, i + 1);
    }
  }

  lemma KeyValueNext(obj: string, key: string, search: nat)
    ensures var k := Find(obj, Needle(key), search);
            KeyValue(obj, key, search) ==
            if k < 0 then -1
            else if !IsKeyAt(obj, key, k) then KeyValue(obj, key, k + |Needle(key)|)
            else if SkipSpaces(obj, AfterKey(obj, key, k) + 1) < |obj| then SkipSpaces(obj, AfterKey(obj, key, k) + 1)
            else -1
  {
  }

  lemma NoKeyBeyond(obj: string, key: string, search: nat)
    requires search >= |obj|
    ensures KeyValue(obj, key, search) == -1
  {
  }

  method FindKeyValue(obj: string, key: string) returns (found: bool, valuePos: nat)
    ensures found == (KeyValue(obj, key, 0) >= 0)
    ensures found ==> valuePos == KeyValue(obj, key, 0)
  {
    valuePos := 0;
    ghost var answer := KeyValue(obj, key, 0);
    var search := 0;
    while search < |obj|
      invariant answer == KeyValue(obj, key, search)
      decreases |obj| - search
    {
      var k := Find(obj, Needle(key), search);
      KeyValueNext(obj, key, search);
      if k < 0 {
        return false, 0;
      }
      var isKey, v := KeyAt(obj, key, k);
      if isKey {
        return v < |obj|, v;
      }
      search := k + |Needle(key)|;
    }
    NoKeyBeyond(obj, key, search);
    return false, 0;
  }

  const LLONG_MAX := 0x7FFF_FFFF_FFFF_FFFF

  /** `get_int`: a leading sign is skipped, the digits are read and saturate; -1 stands for failure. */
  function GetInt(obj: string, key: string): int {
    var v := KeyValue(obj, key, 0);
    if v < 0 then -1
    else
      Saturate(LeadingNat(obj[if obj[v] == '-' || obj[v] == '+' then v + 1 else v..]))
  }

  function Saturate(n: int): int {
    if n > LLONG_MAX then LLONG_MAX else n
  }

  // ----- what the searches find, told by characters -----

  /** The key, in quotes, stands at k. */
  predicate QuotedAt(s: string, key: string, k: nat) {
    var e := k + 1 + |key|;
    e < |s| && s[k] == '"' && s[k + 1..e] == key && s[e] == '"'
  }

  lemma QuotedMatches(s: string, key: string, k: nat)
    ensures MatchAt(s, Needle(key), k) <==> QuotedAt(s, key, k)
  {
    var e := k + 1 + |key|;
    if e < |s| {
      assert s[k..e + 1] == [s[k]] + s[k + 1..e] + [s[e]];
      assert Needle(key)[0] == '"' && Needle(key)[|key| + 1] == '"' && Needle(key)[1..|key| + 1] == key;
    }
  }

  lemma FindsQuoted(s: string, key: string, from: nat, k: nat)
    requires from <= k && QuotedAt(s, key, k) && forall i: nat :: from <= i < k ==> !QuotedAt(s, key, i)
    ensures Find(s, Needle(key), from) == k
  {
    QuotedMatches(s, key, k);
    forall i: nat | from <= i < k ensures !MatchAt(s, Needle(key), i) {
      QuotedMatches(s, key, i);
    }
    FindIs(s, Needle(key), from, k);
  }

  lemma FindsNone(s: string, key: string, from: nat)
    requires forall i: nat :: from <= i ==> !QuotedAt(s, key, i)
    ensures Find(s, Needle(key), from) == -1
  {
    var k := Find(s, Needle(key), from);
    if k >= 0 {
      FoundMatches(s, Needle(key), from);
      QuotedMatches(s, key, k);
    }
  }

  lemma {:induction false} FoundMatches(s: string, needle: string, from: nat)
    requires Find(s, needle, from) >= 0
    ensures from <= Find(s, needle, from) && MatchAt(s, needle, Find(s, needle, from))
    decreases |s| - from
  {
    if !MatchAt(s, needle, from) {
      FoundMatches(s, needle, from + 1);
    }
  }

  lemma {:induction false} SkipsTo(s: string, i: nat, v: nat)
    requires i <= v <= |s| && (forall j :: i <= j < v ==> Blank(s[j])) && (v < |s| ==> !Blank(s[v]))
    ensures SkipBlanks(s, i) == v
    decreases v - i
  {
    if i < v {
      SkipsTo(s, i + 1, v);
    }
  }

  lemma {:induction false} SkipsSpacesTo(s: string, i: nat, v: nat)
    requires i <= v <= |s| && (forall j :: i <= j < v ==> Space(s[j])) && (v < |s| ==> !Space(s[v]))
    ensures SkipSpaces(s, i) == v
    decreases v - i
  {
    if i < v {
      SkipsSpacesTo(s, i + 1, v);
    }
  }

  lemma ColonAt(s: string, i: nat)
    ensures MatchAt(s, ":", i) <==> i < |s| && s[i] == ':'
  {
    if i < |s| {
      assert s[i..i + 1] == [s[i]];
    }
  }

  lemma FindsColon(s: string, from: nat, c: nat)
    requires from <= c < |s| && s[c] == ':' && forall i :: from <= i < c ==> s[i] != ':'
    ensures Find(s, ":", from) == c
  {
    ColonAt(s, c);
    forall i: nat | from <= i < c ensures !MatchAt(s, ":", i) {
      ColonAt(s, i);
    }
    FindIs(s, ":", from, c);
  }

  /** The robot takes the first quoted key, the first colon behind it, and what follows the blanks and tabs. */
  lemma RobotFinds(obj: string, key: string, k: nat, c: nat, v: nat)
    requires QuotedAt(obj, key, k) && forall i: nat :: i < k ==> !QuotedAt(obj, key, i)
    requires k + |key| + 2 <= c < |obj| && obj[c] == ':' && forall i :: k + |key| + 2 <= i < c ==> obj[i] != ':'
    requires c < v <= |obj| && (forall i :: c < i < v ==> obj[i] == ' ' || obj[i] == '\t')
    requires v < |obj| ==> obj[v] != ' ' && obj[v] != '\t'
    ensures ValueStart(obj, key) == v
  {
    FindsQuoted(obj, key, 0, k);
    FindsColon(obj, k + |key| + 2, c);
    SkipsTo(obj, c + 1, v);
  }

  /** Without the key, or without a colon behind it, there is no value. */
  lemma RobotFindsNone(obj: string, key: string)
    requires forall k: nat, c: nat :: QuotedAt(obj, key, k) && k + |key| + 2 <= c < |obj| ==> obj[c] != ':'
    ensures ValueStart(obj, key) == -1
  {
    var k := Find(obj, Needle(key), 0);
    if k >= 0 {
      FoundMatches(obj, Needle(key), 0);
      QuotedMatches(obj, key, k);
      var c := Find(obj, ":", k + |key| + 2);
      if c >= 0 {
        FoundMatches(obj, ":", k + |key| + 2);
        ColonAt(obj, c);
      }
    }
  }

  /** The bridge goes to the first quoted key, and there wants only white space before the colon: */
  lemma BridgeFinds(obj: string, key: string, from: nat, k: nat, c: nat, v: nat)
    requires from <= k && QuotedAt(obj, key, k) && forall i: nat :: from <= i < k ==> !QuotedAt(obj, key, i)
    requires k + |key| + 2 <= c < v < |obj| && obj[c] == ':' && !Space(obj[v])
    requires forall i :: k + |key| + 2 <= i < v && i != c ==> Space(obj[i])
    ensures KeyValue(obj, key, from) == v
  {
    FindsQuoted(obj, key, from, k);
    SkipsSpacesTo(obj, k + |key| + 2, c);
    SkipsSpacesTo(obj, c + 1, v);
    ColonWanted(obj, key, k, c);
    StopsAt(obj, key, from, k, c);
  }

  lemma ColonWanted(obj: string, key: string, k: nat, c: nat)
    requires k + |key| + 2 <= c <= |obj| && SkipSpaces(obj, k + |key| + 2) == c
    ensures k + |Needle(key)| <= |obj| && AfterKey(obj, key, k) == c
    ensures IsKeyAt(obj, key, k) <==> c < |obj| && obj[c] == ':'
  {
  }

  lemma StopsAt(obj: string, key: string, from: nat, k: nat, c: nat)
    requires Find(obj, Needle(key), from) == k && AfterKey(obj, key, k) == c && IsKeyAt(obj, key, k)
    requires SkipSpaces(obj, c + 1) < |obj|
    ensures KeyValue(obj, key, from) == SkipSpaces(obj, c + 1)
  {
  }

  lemma GoesOn(obj: string, key: string, from: nat, k: nat)
    requires Find(obj, Needle(key), from) == k && !IsKeyAt(obj, key, k)
    ensures KeyValue(obj, key, from) == KeyValue(obj, key, k + |Needle(key)|)
  {
  }

  /** else it goes on behind it, and a key that is not there has no value. */
  lemma BridgePasses(obj: string, key: string, from: nat, k: nat, c: nat)
    requires from <= k && QuotedAt(obj, key, k) && forall i: nat :: from <= i < k ==> !QuotedAt(obj, key, i)
    requires k + |key| + 2 <= c <= |obj| && (forall i :: k + |key| + 2 <= i < c ==> Space(obj[i]))
    requires c < |obj| ==> !Space(obj[c]) && obj[c] != ':'
    ensures KeyValue(obj, key, from) == KeyValue(obj, key, k + |key| + 2)
  {
    FindsQuoted(obj, key, from, k);
    SkipsSpacesTo(obj, k + |key| + 2, c);
    ColonWanted(obj, key, k, c);
    GoesOn(obj, key, from, k);
  }

  lemma BridgeFindsNone(obj: string, key: string, from: nat)
    requires forall k: nat :: from <= k ==> !QuotedAt(obj, key, k)
    ensures KeyValue(obj, key, from) == -1
  {
    FindsNone(obj, key, from);
  }

  // ----- the texts -----

  const SEQ_OPEN := "{\"seq\":"

  /** Both envelopes begin with the sequence number. */
  function Opening(n: nat): string {
    SEQ_OPEN + Decimal(n) + ","
  }

  /** What the bridge publishes for a command, after the opening. */
  function CommandTail(cmd: string, payload: string): string {
    "\"cmd\":\"" + (Escape(cmd) + QUOTE + (",\"payload\":" + (if payload == "" then "null" else payload) + "}"))
  }

  function CommandText(n: nat, cmd: string, payload: string): string {
    Opening(n) + CommandTail(cmd, payload)
  }

  function Quoted(s: string): string {
    if s == "" then "null" else QUOTE + Esc(s) + QUOTE
  }

  /** What the robot answers, after the opening. */
  function ResultTail(ok: bool, cmd: string, status: string, reason: string, id: string): string {
    "\"ok\":" + (if ok then "true" else "false") + ",\"cmd\":\"" + Esc(cmd) + "\",\"status\":\"" +
    Esc(status) + "\",\"reason\":" + Quoted(reason) + ",\"task_id\":" + Quoted(id) + "}"
  }

  function ResultText(n: nat, ok: bool, cmd: string, status: string, reason: string, id: string): string {
    Opening(n) + ResultTail(ok, cmd, status, reason, id)
  }

  // ----- reading the number -----

  /** The number's key is found first, and its value starts right behind the colon. */
  lemma SeqKeyFirst(x: string)
    ensures var t := SEQ_OPEN + x;
            && |t| >= 7 && t[7..] == x && t[6] == ':' && Find(t, Needle("seq"), 0) == 1
  {
    var t := SEQ_OPEN + x;
    assert t[0] == '{' && t[1..6] == "\"seq\"";
    assert MatchAt(t, Needle("seq"), 1);
    assert !MatchAt(t, Needle("seq"), 0) by {
      assert t[0..5][0] == '{';
    }
    FindIs(t, Needle("seq"), 0, 1);
  }

  lemma SeqValueAt(x: string)
    requires x != "" && !Space(x[0])
    ensures var t := SEQ_OPEN + x; KeyValue(t, "seq", 0) == 7 && ValueStart(t, "seq") == 7
  {
    var t := SEQ_OPEN + x;
    SeqKeyFirst(x);
    assert t[7] == x[0];
    assert AfterKey(t, "seq", 1) == 6 && IsKeyAt(t, "seq", 1);
    assert SkipSpaces(t, 7) == 7;
    KeyValueNext(t, "seq", 0);
    assert t[6..7] == ":";
    FindIs(t, ":", 6, 6);
  }

  lemma OpeningSplit(n: nat, tail: string)
    ensures Opening(n) + tail == SEQ_OPEN + (Decimal(n) + ("," + tail))
    ensures (Decimal(n) + ("," + tail))[0] == Decimal(n)[0] && IsDigit(Decimal(n)[0])
  {
    DecimalDigits(n);
  }

  /** The robot reads the number the bridge wrote, whatever follows. */
  lemma RobotReadsSeq(n: nat, tail: string)
    requires n < 65536
    ensures ExtractSeq(Opening(n) + tail) == n
  {
    var x := Decimal(n) + ("," + tail);
    OpeningSplit(n, tail);
    SeqKeyFirst(x);
    SeqValueAt(x);
    WholeNumberReadBack(n, "," + tail);
    SeqRead(SEQ_OPEN + x, 7, x, n);
  }

  lemma SeqRead(t: string, at: nat, x: string, n: nat)
    requires ValueStart(t, "seq") == at < |t| && t[at..] == x && ReadNumber(x) == Some(n as real) && n < 65536
    ensures ExtractSeq(t) == n
  {
    WholeToUint16(n);
    assert ExtractNumber(t, "seq") == Some(n as real);
  }

  lemma WholeToUint16(n: nat)
    requires n < 65536
    ensures ToUint16(n as real) == n
  {
  }

  /** The bridge reads the number the robot wrote, whatever follows. */
  lemma BridgeReadsSeq(n: nat, tail: string)
    requires n <= LLONG_MAX
    ensures GetInt(Opening(n) + tail, "seq") == n
  {
    OpeningSplit(n, tail);
    SignedReadBackIff(n, tail);
  }

  // ----- reading the command -----

  /** Nowhere in the opening is there a quote followed by 'c'. */
  lemma CmdKeyFirst(n: nat, tail: string)
    ensures var t := Opening(n) + ("\"cmd\":\"" + tail);
            Find(t, Needle("cmd"), 0) == |Opening(n)|
  {
    var o := Opening(n);
    var t := o + ("\"cmd\":\"" + tail);
    var k := |o|;
    DecimalDigits(n);
    assert t[k..k + 5] == "\"cmd\"";
    assert MatchAt(t, Needle("cmd"), k);
    forall i: nat | i < k ensures !MatchAt(t, Needle("cmd"), i) {
      OpeningHasNoCmd(n, t, i);
    }
    FindIs(t, Needle("cmd"), 0, k);
  }

  lemma OpeningChars(n: nat, i: nat)
    requires i < |Opening(n)|
    ensures Opening(n)[i] == '"' ==> i == 1 || i == 5
    ensures Opening(n)[2] == 's' && Opening(n)[6] == ':' && |Opening(n)| >= 9
  {
    DecimalDigits(n);
    var o := Opening(n);
    if 7 <= i < 7 + |Decimal(n)| {
      assert o[i] == Decimal(n)[i - 7];
    }
  }

  lemma OpeningHasNoCmd(n: nat, t: string, i: nat)
    requires i < |Opening(n)| <= |t| && t[..|Opening(n)|] == Opening(n)
    ensures !MatchAt(t, Needle("cmd"), i)
  {
    OpeningChars(n, i);
    var o := Opening(n);
    assert t[i] == o[i] && t[2] == o[2] && t[6] == o[6];
    if i + 5 <= |t| {
      assert t[i..i + 5][0] == t[i] && t[i..i + 5][1] == t[i + 1];
    }
  }

  lemma CmdPositions(n: nat, body: string)
    ensures var t, k := Opening(n) + ("\"cmd\":\"" + body), |Opening(n)|;
            && |t| > k + 6 && t[k + 5] == ':' && t[k + 6] == '"' && t[k + 7..] == body
            && MatchAt(t, ":", k + 5)
  {
    var o := Opening(n);
    var t := o + ("\"cmd\":\"" + body);
    assert t[|o| + 5..|o| + 6] == ":";
  }

  lemma ExtractAt(t: string, key: string, v: nat, body: string)
    requires ValueStart(t, key) == v < |t| && t[v] == '"' && t[v + 1..] == body
    ensures ExtractString(t, key) == Some(ReadBody(body))
  {
  }

  lemma RobotFindsCmd(n: nat, body: string)
    ensures ExtractString(Opening(n) + ("\"cmd\":\"" + body), "cmd") == Some(ReadBody(body))
  {
    CmdKeyFirst(n, body);
    CmdPositions(n, body);
    CmdValue(Opening(n) + ("\"cmd\":\"" + body), |Opening(n)|, body);
  }

  lemma CmdValue(t: string, k: nat, body: string)
    requires Find(t, Needle("cmd"), 0) == k && |t| > k + 6 && t[k + 6] == '"' && t[k + 7..] == body
    requires MatchAt(t, ":", k + 5)
    ensures ExtractString(t, "cmd") == Some(ReadBody(body))
  {
    ValueAt(t, "cmd", k, k + 6);
    ExtractAt(t, "cmd", k + 6, body);
  }

  lemma ValueAt(t: string, key: string, k: nat, v: nat)
    requires Find(t, Needle(key), 0) == k && k + |key| + 3 == v < |t|
    requires MatchAt(t, ":", v - 1) && !Blank(t[v])
    ensures ValueStart(t, key) == v
  {
    FindIs(t, ":", v - 1, v - 1);
  }

  /** For every payload the robot reads the envelope's number, and its command exactly when the command
      has no control characters (the bridge's own command names have none). */
  lemma EnvelopeReadBack(n: nat, cmd: string, payload: string)
    requires n < 65536
    ensures ExtractSeq(CommandText(n, cmd, payload)) == n
    ensures ExtractString(CommandText(n, cmd, payload), "cmd") == Some(cmd) <==> NoControls(cmd)
  {
    var rest := ",\"payload\":" + (if payload == "" then "null" else payload) + "}";
    RobotReadsSeq(n, CommandTail(cmd, payload));
    RobotFindsCmd(n, Escape(cmd) + QUOTE + rest);
    BridgeToRobotIff(cmd, rest);
  }

  /** For every result the bridge reads the number the robot wrote. */
  lemma ResultReadBack(n: nat, ok: bool, cmd: string, status: string, reason: string, id: string)
    requires n <= LLONG_MAX
    ensures GetInt(ResultText(n, ok, cmd, status, reason, id), "seq") == n
  {
    BridgeReadsSeq(n, ResultTail(ok, cmd, status, reason, id));
  }

  /** The whole echo: the bridge reads from the robot's answer the number it put in the envelope. */
  lemma SeqEcho(n: nat, cmd: string, payload: string, ok: bool, status: string, reason: string, id: string)
    requires n < 65536
    ensures var seen := ExtractSeq(CommandText(n, cmd, payload));
            0 <= seen && GetInt(ResultText(seen, ok, cmd, status, reason, id), "seq") == n
  {
    EnvelopeReadBack(n, cmd, payload);
    ResultReadBack(n, ok, cmd, status, reason, id);
  }

  // ----- signed numbers -----

  function SignedText(v: int): string {
    if v < 0 then "-" + Decimal(-v) else Decimal(v)
  }

  function Magnitude(v: int): nat {
    if v < 0 then -v else v
  }

  lemma SignedTextParts(v: int, tail: string)
    ensures var x := SignedText(v) + ("," + tail);
            if v < 0 then x[0] == '-' && x[1..] == Decimal(-v) + ("," + tail)
            else IsDigit(x[0]) && x == Decimal(v) + ("," + tail)
  {
    if v < 0 {
      BehindMinus(Decimal(-v), "," + tail);
    } else {
      DecimalDigits(v);
    }
  }

  lemma BehindMinus(d: string, rest: string)
    ensures (("-" + d) + rest)[0] == '-' && (("-" + d) + rest)[1..] == d + rest
  {
    assert ("-" + d) + rest == "-" + (d + rest);
  }

  /** `get_int` returns the magnitude, saturated: it drops a sign that is there. */
  lemma GetIntMagnitude(v: int, tail: string)
    ensures GetInt(SEQ_OPEN + (SignedText(v) + ("," + tail)), "seq") ==
            (if -9223372036854775807 <= v <= 9223372036854775807 then (if v < 0 then -v else v)
             else 9223372036854775807)
  {
    var x := SignedText(v) + ("," + tail);
    SignedTextParts(v, tail);
    DecimalRoundTrip(Magnitude(v), "," + tail);
    SeqKeyFirst(x);
    SeqValueAt(x);
    ReadsBehindSign(SEQ_OPEN + x, x, 7, if v < 0 then x[1..] else x);
  }

  lemma ReadsBehindSign(t: string, x: string, at: nat, digits: string)
    requires KeyValue(t, "seq", 0) == at < |t| && t[at..] == x
    requires digits == if x[0] == '-' || x[0] == '+' then x[1..] else x
    ensures GetInt(t, "seq") == Saturate(LeadingNat(digits))
  {
    Suffix(t, at);
  }

  lemma Suffix(t: string, at: nat)
    requires at < |t|
    ensures t[at..][0] == t[at] && t[at..][1..] == t[at + 1..]
  {
  }

  /** So a printed integer of any size is read back exactly when it is a non-negative `long long`. */
  lemma SignedReadBackIff(v: int, tail: string)
    ensures GetInt(SEQ_OPEN + (SignedText(v) + ("," + tail)), "seq") == v <==> 0 <= v <= 9223372036854775807
  {
    GetIntMagnitude(v, tail);
  }
}
