/** The text form of a log entry, which is also the form of every message between coordinator and
    participants, and the log itself. */
module LogText {
  import opened Decimal
  import opened Options
  import opened Resp

  const TXID_TAG := "TXID: "
  const STATE_TAG := "S: "

  datatype Entry = Entry(id: int, state: int, event: string)

  function LogToStr(e: Entry): string {
    TXID_TAG + PrintInt(e.id) + CRLF + STATE_TAG + PrintInt(e.state) + CRLF + CRLF + e.event
  }

  predicate At(s: string, pat: string, i: nat) {
    i + |pat| <= |s| && s[i..i + |pat|] == pat
  }

  /** The first place at or after `from` where `pat` occurs. */
  function FindFrom(s: string, pat: string, from: nat): Option<nat>
    decreases |s| - from
  {
    if from > |s| then None
    else if At(s, pat, from) then Some(from)
    else FindFrom(s, pat, from + 1)
  }

  lemma {:induction false} FindIs(s: string, pat: string, from: nat, i: nat)
    requires from <= i && At(s, pat, i) && forall j {:trigger At(s, pat, j)} :: from <= j < i ==> !At(s, pat, j)
    ensures FindFrom(s, pat, from) == Some(i)
    decreases i - from
  {
    if from < i { FindIs(s, pat, from + 1, i); }
  }

  function Find(s: string, pat: string): Option<nat> {
    FindFrom(s, pat, 0)
  }

  /** `s.substr(from, length)` with a length that may be negative, and so mean the rest of the text; `None`
      stands for the exception it throws. */
  function Substr(s: string, from: nat, length: int): Option<string> {
    if from > |s| then None
    else if length < 0 || from + length > |s| then Some(s[from..])
    else Some(s[from..from + length])
  }

  /** One tagged number: its text, and where the line that holds it ends.  `None` stands for a failed
      assertion or an exception. */
  function Tagged(s: string, tag: string): Option<(int, nat)> {
    var begin, end := Find(s, tag), Find(s, CRLF);
    if begin.None? || end.None? then None
    else
      var sID := Substr(s, begin.value + |tag|, end.value - begin.value - |tag|);
      if sID.None? then None else Some((Read(sID.value), end.value))
  }

  function StrToLog(s: string): Option<Entry> {
    var id := Tagged(s, TXID_TAG);
    if id.None? then None
    else StateAndEvent(id.value.0, s[if id.value.1 + 2 <= |s| then id.value.1 + 2 else |s|..])
  }

  /** What comes after the line of the id.  The state is kept in one byte. */
  function StateAndEvent(id: int, str: string): Option<Entry> {
    var state := Tagged(str, STATE_TAG);
    if state.None? || state.value.1 + 4 > |str| then None
    else Some(Entry(id, state.value.0 % 256, str[state.value.1 + 4..]))
  }

  lemma NoLineEnd(digits: string)
    requires Digits(digits)
    ensures '\r' !in digits && '\n' !in digits
  {
  }

  /** The first line of a text that begins with a tag and a number. */
  lemma TaggedReads(tag: string, n: nat, rest: string)
    requires |tag| > 0 && '\r' !in tag
    ensures Tagged(tag + Print(n) + CRLF + rest, tag) == Some((n, |tag| + |Print(n)|))
  {
    var s := tag + Print(n) + CRLF + rest;
    var end := |tag| + |Print(n)|;
    PrintsDigits(n);
    NoLineEnd(Print(n));
    assert At(s, tag, 0);
    assert s[end..end + 2] == CRLF;
    assert At(s, CRLF, end);
    forall j {:trigger At(s, CRLF, j)} | 0 <= j < end ensures !At(s, CRLF, j) {
      assert s[j] == (tag + Print(n))[j] != '\r';
      if j + 2 <= |s| { assert s[j..j + 2][0] == s[j]; }
    }
    FindIs(s, CRLF, 0, end);
    assert s[|tag|..|tag| + |Print(n)|] == Print(n);
    assert Print(n) + "" == Print(n);
    ReadPrint(n, "");
  }

  /** `s` begins with a line of the tag and `n`, and goes on with `rest`. */
  ghost predicate Line(s: string, tag: string, n: int, rest: string) {
    && Tagged(s, tag).Some? && Tagged(s, tag).value.0 == n
    && var end := Tagged(s, tag).value.1; end + 2 <= |s| && s[end + 2..] == rest
  }

  lemma LineRead(tag: string, n: nat, rest: string)
    requires |tag| > 0 && '\r' !in tag
    ensures Line(tag + Print(n) + CRLF + rest, tag, n, rest)
  {
    var s := tag + Print(n) + CRLF + rest;
    TaggedReads(tag, n, rest);
    assert s[|tag| + |Print(n)| + 2..] == rest;
  }

  /** What follows the line end and the empty line. */
  lemma AfterLines(str: string, end: nat, event: string)
    requires end + 2 <= |str| && str[end + 2..] == CRLF + event
    ensures end + 4 <= |str| && str[end + 4..] == event
  {
    assert |str| - end - 2 == 2 + |event|;
    assert str[end + 2..][2..] == str[end + 4..];
    assert (CRLF + event)[2..] == event;
  }

  lemma FirstLine(s: string, str: string, id: int)
    requires Line(s, TXID_TAG, id, str)
    ensures StrToLog(s) == StateAndEvent(id, str)
  {
  }

  lemma SecondLine(str: string, id: int, state: int, event: string)
    requires Line(str, STATE_TAG, state, CRLF + event)
    ensures StateAndEvent(id, str) == Some(Entry(id, state % 256, event))
  {
    AfterLines(str, Tagged(str, STATE_TAG).value.1, event);
  }

  lemma LogLines(id: nat, state: nat, event: string)
    ensures LogToStr(Entry(id, state, event)) ==
      TXID_TAG + Print(id) + CRLF + (STATE_TAG + Print(state) + CRLF + (CRLF + event))
  {
  }

  /** A log entry is read back: id, state, and an event of any kind, with line ends, tags or anything else
      in it. */
  lemma LogRoundTrip(id: nat, state: nat, event: string)
    requires state < 256
    ensures StrToLog(LogToStr(Entry(id, state, event))) == Some(Entry(id, state, event))
  {
    var str := STATE_TAG + Print(state) + CRLF + (CRLF + event);
    LogLines(id, state, event);
    LineRead(TXID_TAG, id, str);
    LineRead(STATE_TAG, state, CRLF + event);
    FirstLine(LogToStr(Entry(id, state, event)), str, id);
    SecondLine(str, id, state, event);
  }

  /** A log entry whose text is taken apart into its fields. */
  class LogRecord {
    var id: int
    var state: int
    var event: string

    constructor (e: Entry)
      ensures Value() == e
    {
      id, state, event := e.id, e.state, e.event;
    }

    function Value(): Entry
      reads this
    {
      Entry(id, state, event)
    }

    /** Takes the fields from the text; `ok` is false where the assertion fails. */
    method FromText(text: string) returns (ok: bool)
      modifies this
      ensures ok == StrToLog(text).Some? && (ok ==> Value() == StrToLog(text).value)
    {
      var str := text;
      var n, end;
      ok, n, end := Take(str, TXID_TAG);
      if !ok { return; }
      id := n;

      str := str[if end + 2 <= |str| then end + 2 else |str|..];
      ok, n, end := Take(str, STATE_TAG);
      if !ok { return; }
      state := n % 256;

      if end + 4 > |str| { return false; }
      event := str[end + 4..];
    }

    static method Take(str: string, tag: string) returns (ok: bool, n: int, end: nat)
      ensures Tagged(str, tag) == if ok then Some((n, end)) else None
    {
      n, end := 0, 0;
      var begin, stop := Find(str, tag), Find(str, CRLF);
      if begin.None? || stop.None? { return false, n, end; }
      var text := Substr(str, begin.value + |tag|, stop.value - begin.value - |tag|);
      if text.None? { return false, n, end; }
      return true, Read(text.value), stop.value;
    }
  }
}
