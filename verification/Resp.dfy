/** The printer and the parser of the text protocol between clients, coordinator and participants. */
module Resp {
  import opened Decimal
  import opened Lists
  import opened Options

  const CRLF := "\r\n"
  const SUCCESS := "+OK\r\n"
  const ERROR := "-ERROR\r\n"

  // ---- printing ----

  function GetStringMessage(raw: string): string {
    "$" + Print(|raw|) + CRLF + raw + CRLF
  }

  function GetIntergerMessage(raw: int): string {
    ":" + PrintInt(raw) + CRLF
  }

  /** The messages of the elements, one after another. */
  function Strings(v: seq<string>): string {
    PrintAll(GetStringMessage, v)
  }

  function ArrayHeader(n: nat): string {
    "*" + Print(n) + CRLF
  }

  function ArrayMessage(v: seq<string>): string {
    ArrayHeader(|v|) + Strings(v)
  }

  method GetRESPArry(raw: seq<string>) returns (rc: string)
    ensures rc == ArrayMessage(raw)
  {
    rc := "*";
    rc := rc + Print(|raw|);
    rc := rc + CRLF;
    for i := 0 to |raw|
      invariant rc == ArrayHeader(|raw|) + Strings(raw[..i])
    {
      OneMore(ArrayHeader(|raw|), raw, i);
      rc := rc + GetStringMessage(raw[i]);
    }
    assert raw[..|raw|] == raw;
  }

  lemma OneMore(header: string, v: seq<string>, i: nat)
    requires i < |v|
    ensures header + Strings(v[..i + 1]) == header + Strings(v[..i]) + GetStringMessage(v[i])
  {
    assert v[..i + 1][..i] == v[..i];
  }

  // ---- parsing ----

  /** Parses the string message at `pos`, giving the string and the length of the message.  `None` stands
      for a failed assertion, or for reading past the end of the text. */
  function ParseStringMessage(s: string, pos: nat): Option<(string, nat)> {
    if pos >= |s| || s[pos] != '$' then None
    else
      var strl := Read(s[pos + 1..]);
      var start := pos + 3 + |PrintInt(strl)|;
      if strl < 0 || start + strl > |s| then None
      else Some((s[start..start + strl], 3 + |PrintInt(strl)| + strl + 2))
  }

  /** The list that the text begins with, read with `one`. */
  function ParseArrayWith(one: Reader<string>, s: string): Option<(seq<string>, nat)> {
    if s == "" || s[0] != '*' then None
    else
      var number := Read(s[1..]);
      ReadAll(one, s, |PrintInt(number)| + 3, if number < 0 then 0 else number)
  }

  function ParseArray(s: string): Option<(seq<string>, nat)> {
    ParseArrayWith(ParseStringMessage, s)
  }

  method ParserRESPArry(message: string) returns (ok: bool, rc: seq<string>, length: nat)
    ensures ParseArray(message) == if ok then Some((rc, length)) else None
  {
    ok, rc, length := ParseWith(ParseStringMessage, message);
  }

  method ParseWith(one: Reader<string>, message: string) returns (ok: bool, rc: seq<string>, length: nat)
    ensures ParseArrayWith(one, message) == if ok then Some((rc, length)) else None
  {
    rc, length := [], 0;
    if message == "" || message[0] != '*' { return false, rc, length; }
    var number := Read(message[1..]);
    var pos := |PrintInt(number)| + 3;
    ghost var start := pos;
    ghost var count: nat := if number < 0 then 0 else number;
    var i := 0;
    while i < number
      invariant 0 <= i <= count && ReadAll(one, message, start, i) == Some((rc, pos))
    {
      var next := one(message, pos);
      OneRead(one, message, start, i, rc, pos, next);
      if next.None? {
        NoneStays(one, message, start, i + 1, count);
        return false, rc, length;
      }
      rc := rc + [next.value.0];
      pos := pos + next.value.1;
      i := i + 1;
    }
    return true, rc, pos;
  }

  function ParserIntergerMessage(s: string): Option<(int, nat)> {
    if s == "" || s[0] != ':' then None
    else
      var rc := Read(s[1..]);
      Some((rc, 3 + |PrintInt(rc)|))
  }

  function ParserSuccessMessage(s: string): Option<(bool, nat)> {
    if s == "" || (s[0] != '+' && s[0] != '-') then None
    else if s[0] == '+' then Some((true, 5))
    else Some((false, 8))
  }

  // ---- round trips ----

  /** What the parser meets of a string message. */
  lemma StringParts(before: string, raw: string, rest: string)
    ensures var s, n := before + GetStringMessage(raw) + rest, |before|;
      var start := n + 3 + |Print(|raw|)|;
      && |GetStringMessage(raw)| == 3 + |Print(|raw|)| + |raw| + 2
      && n < start <= start + |raw| <= |s| && s[n] == '$'
      && s[n + 1..] == Print(|raw|) + (CRLF + raw + CRLF + rest) && s[start..start + |raw|] == raw
  {
    var s, n := before + GetStringMessage(raw) + rest, |before|;
    var start := n + 3 + |Print(|raw|)|;
    var p := Print(|raw|);
    Grouped(before, p, raw, rest);
    assert s == (before + "$") + (p + (CRLF + raw + CRLF + rest));
    assert s == (before + "$" + p + CRLF) + raw + (CRLF + rest);
  }

  lemma Grouped(before: string, p: string, raw: string, rest: string)
    ensures before + ("$" + p + CRLF + raw + CRLF) + rest == (before + "$") + (p + (CRLF + raw + CRLF + rest))
    ensures before + ("$" + p + CRLF + raw + CRLF) + rest == (before + "$" + p + CRLF) + raw + (CRLF + rest)
  {
  }

  /** A string message is read back with its exact length, wherever it stands and whatever follows it: the
      string may hold line ends, dollar signs or anything else. */
  lemma StringRoundTrip(before: string, raw: string, rest: string)
    ensures ParseStringMessage(before + GetStringMessage(raw) + rest, |before|) == Some((raw, |GetStringMessage(raw)|))
  {
    StringParts(before, raw, rest);
    ReadPrint(|raw|, CRLF + raw + CRLF + rest);
  }

  predicate AnyString(s: string) { true }

  lemma StringsReadBack()
    ensures ReadsBack(ParseStringMessage, GetStringMessage, AnyString)
  {
    forall x: string, before: string, rest: string {:trigger before + GetStringMessage(x) + rest}
      ensures ParseStringMessage(before + GetStringMessage(x) + rest, |before|) == Some((x, |GetStringMessage(x)|))
    {
      StringRoundTrip(before, x, rest);
    }
  }

  /** A list of strings is read back, and the length reported is the length printed. */
  lemma ArrayRoundTrip(v: seq<string>, rest: string)
    ensures ParseArray(ArrayMessage(v) + rest) == Some((v, |ArrayMessage(v)|))
  {
    StringsReadBack();
    ArrayReadBack(ParseStringMessage, v, rest);
  }

  lemma ArrayReadBack(one: Reader<string>, v: seq<string>, rest: string)
    requires ReadsBack(one, GetStringMessage, AnyString)
    ensures ParseArrayWith(one, ArrayMessage(v) + rest) == Some((v, |ArrayMessage(v)|))
  {
    var header, body := ArrayHeader(|v|), Strings(v);
    HeaderRead(|v|, body + rest);
    assert header + body + rest == header + (body + rest);
    AllReadBack(one, GetStringMessage, AnyString, header, v, rest);
  }

  lemma HeaderRead(n: nat, rest: string)
    ensures var s := ArrayHeader(n) + rest;
      s[0] == '*' && Read(s[1..]) == n && |ArrayHeader(n)| == |PrintInt(n)| + 3
  {
    var s := ArrayHeader(n) + rest;
    assert s[1..] == Print(n) + (CRLF + rest);
    ReadPrint(n, CRLF + rest);
  }

  lemma IntergerRoundTrip(i: int, rest: string)
    ensures ParserIntergerMessage(GetIntergerMessage(i) + rest) == Some((i, |GetIntergerMessage(i)|))
  {
    var s := GetIntergerMessage(i) + rest;
    assert s[1..] == PrintInt(i) + (CRLF + rest);
    ReadPrint(i, CRLF + rest);
  }

  /** Both status messages are recognised, with the length printed. */
  lemma StatusRoundTrip(rest: string)
    ensures ParserSuccessMessage(SUCCESS + rest) == Some((true, |SUCCESS|))
    ensures ParserSuccessMessage(ERROR + rest) == Some((false, |ERROR|))
  {
  }

  /** Printed lists are told apart, and none is the beginning of another, so a reader knows where a list ends. */
  lemma PrintedArraysDiffer(v: seq<string>, w: seq<string>, rest: string)
    requires ArrayMessage(v) + rest == ArrayMessage(w)
    ensures v == w && rest == ""
  {
    ArrayRoundTrip(v, rest);
    ArrayRoundTrip(w, "");
    assert ArrayMessage(w) + "" == ArrayMessage(w);
  }
}
