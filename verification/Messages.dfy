/** The messages of the protocol as text: what is written as a message is what is read, so that the
    protocol can speak of messages rather than of their text. */
module Messages {
  import opened Decimal
  import opened Options
  import opened Replica
  import opened Resp
  import LogText
  import opened Frames
  import opened Commands

  function StateCode(s: LogState): nat {
    match s
    case INVALID => 0
    case LOG_PRE => 1
    case LOG_COMMIT => 2
    case LOG_ABORT => 3
  }

  function EventText(e: Event): string {
    match e
    case NoEvent => ""
    case Number(n) => Print(n)
    case Command(cmd) => ArrayMessage(cmd)
  }

  function LogMessage(l: Log): string {
    LogText.LogToStr(LogText.Entry(l.id, StateCode(l.state), EventText(l.event)))
  }

  function ReplyText(r: Reply): string
    requires !r.AssertionFailure?
  {
    match r
    case ErrorReply => ERROR
    case OkReply => SUCCESS
    case CountReply(n) => GetIntergerMessage(n)
    case ValueReply(v) => ArrayMessage([v])
    case PreReply => "PRE"
    case TxidReply(t) => Print(t)
    case LogReply(l) => LogMessage(l)
    case NoReply => ""
  }

  /** The event of a message is recognised: a command by its elements, a number by its value. */
  ghost predicate EventRead(e: Event, text: string) {
    match e
    case NoEvent => text == ""
    case Number(n) => Read(text) == n && text != "" && IsDigit(text[0])
    case Command(cmd) => ParseArray(text) == Some((cmd, |text|)) && text != "" && text[0] == '*'
  }

  lemma EventRoundTrip(e: Event)
    ensures EventRead(e, EventText(e))
  {
    match e
    case NoEvent =>
    case Number(n) =>
      PrintsDigits(n);
      ReadPrint(n, "");
      assert PrintInt(n) + "" == Print(n);
    case Command(cmd) =>
      ArrayRoundTrip(cmd, "");
      assert ArrayMessage(cmd) + "" == ArrayMessage(cmd);
  }

  /** Every message is read back: its id, its state and its event. */
  lemma MessageRoundTrip(l: Log)
    ensures LogText.StrToLog(LogMessage(l)) == Some(LogText.Entry(l.id, StateCode(l.state), EventText(l.event)))
    ensures EventRead(l.event, EventText(l.event))
  {
    LogText.LogRoundTrip(l.id, StateCode(l.state), EventText(l.event));
    EventRoundTrip(l.event);
  }

  lemma EventTextsDiffer(e: Event, f: Event)
    requires EventText(e) == EventText(f)
    ensures e == f
  {
    EventRoundTrip(e);
    EventRoundTrip(f);
  }

  lemma CodesDiffer(a: LogState, b: LogState)
    requires StateCode(a) == StateCode(b)
    ensures a == b
  {
  }

  /** Different messages have different texts. */
  lemma MessagesDiffer(l: Log, m: Log)
    requires LogMessage(l) == LogMessage(m)
    ensures l == m
  {
    MessageRoundTrip(l);
    MessageRoundTrip(m);
    EntriesDiffer(l, m, LogText.Entry(l.id, StateCode(l.state), EventText(l.event)));
  }

  lemma EntriesDiffer(l: Log, m: Log, e: LogText.Entry)
    requires e == LogText.Entry(l.id, StateCode(l.state), EventText(l.event))
    requires e == LogText.Entry(m.id, StateCode(m.state), EventText(m.event))
    ensures l == m
  {
    EventTextsDiffer(l.event, m.event);
    CodesDiffer(l.state, m.state);
  }

  lemma MessageStarts(l: Log)
    ensures |LogMessage(l)| > 4 && LogMessage(l)[0] == 'T'
  {
  }

  /** The tests the coordinator makes on the text of an answer tell the answers apart as the protocol does,
      and the numbers and entries in them are read back. */
  lemma RepliesTold(r: Reply)
    requires !r.AssertionFailure?
    ensures ReplyText(r) == ERROR <==> r == ErrorReply
    ensures ReplyText(r) == "PRE" <==> r == PreReply
    ensures ReplyText(r) == "" <==> r == NoReply
    ensures r.TxidReply? ==> Read(ReplyText(r)) == r.t
    ensures r.LogReply? ==>
      LogText.StrToLog(ReplyText(r)) == Some(LogText.Entry(r.l.id, StateCode(r.l.state), EventText(r.l.event)))
  {
    match r
    case TxidReply(t) => EventRoundTrip(Number(t));
    case LogReply(l) =>
      MessageRoundTrip(l);
      MessageStarts(l);
    case ValueReply(v) => EventRoundTrip(Command([v]));
    case CountReply(n) => assert ReplyText(r)[0] == ':';
    case _ =>
  }

  lemma FrameDecoded(before: string, m: string, rest: string)
    requires Fits(m)
    ensures DecodeAt(before + Frame(m) + rest, |before|) == Some((m, |Frame(m)|))
  {
    FrameRoundTrip(before, "", m, rest);
    assert before + "" == before;
  }

  /** A command sent by a client arrives at every participant as the list the client printed: off the
      client's connection, into a message, through a frame, out of the message, and through the parser. */
  lemma CommandArrives(cmd: seq<string>, tail: string, id: nat, state: LogState, before: string, rest: string)
    requires Fits(LogMessage(Log(id, state, Command(cmd))))
    ensures var c := CommandAt(ArrayMessage(cmd) + tail, 0); c.Some? && c.value.0 == cmd
    ensures var m := LogMessage(Log(id, state, Command(cmd)));
      && DecodeAt(before + Frame(m) + rest, |before|) == Some((m, |Frame(m)|))
      && LogText.StrToLog(m) == Some(LogText.Entry(id, StateCode(state), ArrayMessage(cmd)))
      && ParseArray(ArrayMessage(cmd)) == Some((cmd, |ArrayMessage(cmd)|))
  {
    DecodedFromStart(ArrayMessage(cmd) + tail, cmd, tail);
    FrameDecoded(before, LogMessage(Log(id, state, Command(cmd))), rest);
    MessageRoundTrip(Log(id, state, Command(cmd)));
  }
}
