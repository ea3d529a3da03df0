/** One exchange in full: the message as text in a frame, the participant that reads it and answers, and the
    answer in a frame on its way back. */
module Exchanges {
  import opened Decimal
  import opened Options
  import opened Replica
  import opened Resp
  import opened LogText
  import opened Streams
  import opened Frames
  import opened Messages
  import opened Answers
  import Protocol

  function StateOf(code: int): LogState {
    if code == 1 then LOG_PRE else if code == 2 then LOG_COMMIT else if code == 3 then LOG_ABORT else INVALID
  }

  /** The event a text holds. */
  function EventOf(text: string): Event {
    if text == "" then NoEvent
    else if text[0] == '*' then
      var list := ParseArray(text);
      if list.Some? then Command(list.value.0) else NoEvent
    else if Read(text) >= 0 then Number(Read(text))
    else NoEvent
  }

  lemma EventOfText(e: Event)
    ensures EventOf(EventText(e)) == e
  {
    EventRoundTrip(e);
  }

  /** The message that a record's fields make. */
  function MessageOf(e: Entry): Option<Log> {
    if e.id < 0 then None else Some(Log(e.id, StateOf(e.state), EventOf(e.event)))
  }

  lemma MessageOfFields(m: Log)
    ensures MessageOf(Entry(m.id, StateCode(m.state), EventText(m.event))) == Some(m)
  {
    EventOfText(m.event);
  }

  lemma MessageOfText(m: Log)
    ensures var e := StrToLog(LogMessage(m)); e.Some? && MessageOf(e.value) == Some(m)
  {
    MessageRoundTrip(m);
    MessageOfFields(m);
  }

  method ReadMessage(task: string, ghost m: Log) returns (l: Log)
    requires StrToLog(task).Some? && MessageOf(StrToLog(task).value) == Some(m)
    ensures l == m
  {
    var record := new LogRecord(Entry(0, 0, ""));
    var ok := record.FromText(task);
    l := MessageOf(record.Value()).value;
  }

  /** The participant's answer to a message it has as text: the text of the answer the protocol speaks of,
      and the participant after it. */
  method PWorker(p: Participant, task: string, ghost m: Log) returns (rc: string)
    requires task == LogMessage(m) && Answer(p.State(), m).1 != AssertionFailure
    modifies p, p.lg, p.kvdb
    ensures p.State() == Answer(old(p.State()), m).0
    ensures rc == ReplyText(Answer(old(p.State()), m).1) && Tells(rc, Answer(old(p.State()), m).1)
  {
    MessageOfText(m);
    var l := ReadMessage(task, m);
    var answer := p.PWorker(l);
    rc := ReplyText(answer);
    ReplyTells(answer);
  }

  /** One turn of a participant: receive, work, send.  It has nothing to say when the connection closes. */
  method Working(p: Participant, net: Stream, ghost m: Log) returns (rc: int, sent: string)
    requires net.Valid() && Answer(p.State(), m).1 != AssertionFailure
    requires var f := DecodeAt(net.data, net.pos); f.Some? ==> f.value.0 == LogMessage(m)
    modifies net, p, p.lg, p.kvdb
    ensures net.Valid()
    ensures match DecodeAt(net.data, old(net.pos))
            case Some(f) =>
              && rc == KV_OK && net.pos == old(net.pos) + f.1 && p.State() == Answer(old(p.State()), m).0
              && var reply := ReplyText(Answer(old(p.State()), m).1);
                 sent == Frame(reply) && Tells(reply, Answer(old(p.State()), m).1)
            case None => rc == KV_NETWORK_CLOSE && p.State() == old(p.State()) && sent == ""
  {
    sent := "";
    var content;
    rc, content := RecvFrame(net);
    if rc != KV_OK { return; }
    var rmsg := PWorker(p, content, m);
    sent := Frame(rmsg);
  }

  /** An exchange in full.  Of the frame that holds the message `there` bytes get through, and `back` bytes of the
      one that holds the answer, in pieces as they come; and the wait for the answer may time out.  Whatever
      comes of that is what the protocol's exchange comes to, with the fate given: the participant is as it is
      there, and the coordinator has the text of the answer or an error.  If nothing is cut off and nothing
      times out, the answer is heard. */
  method Exchange(p: Participant, m: Log, there: nat, back: nat, patience: nat, patienceBack: nat,
                  ghost s: Protocol.Sys, ghost id: nat) returns (rc: int, rmsg: string, ghost fate: Protocol.Fate)
    requires Answer(p.State(), m).1 != AssertionFailure
    requires Fits(LogMessage(m)) && Fits(ReplyText(Answer(p.State(), m).1))
    requires Protocol.Wf(s) && id < |s.parts| && s.up[id] && s.parts[id] == p.State()
    modifies p, p.lg, p.kvdb
    ensures var (s1, r) := Protocol.Send(s, id, m, fate);
      && p.State() == s1.parts[id]
      && (rc == KV_OK <==> r.Some?) && (rc == KV_OK ==> rmsg == ReplyText(r.value) && Tells(rmsg, r.value))
    ensures var reply := ReplyText(Answer(old(p.State()), m).1);
      && (there < |Frame(LogMessage(m))| <==> fate == Protocol.Undelivered)
      && (there >= |Frame(LogMessage(m))| && back >= |Frame(reply)| && patienceBack == 0 ==> fate == Protocol.Heard)
  {
    rc, rmsg, fate := Converse(p, m, there, back, patience, patienceBack);
    FateOfSend(s, id, m, fate);
    ReplyTells(Answer(old(p.State()), m).1);
  }

  /** What the protocol's exchange does to the participant, and what the coordinator gets. */
  lemma FateOfSend(s: Protocol.Sys, id: nat, m: Log, fate: Protocol.Fate)
    requires Protocol.Wf(s) && id < |s.parts| && s.up[id] && Answer(s.parts[id], m).1 != AssertionFailure
    ensures var (s1, r) := Protocol.Send(s, id, m, fate); var a := Answer(s.parts[id], m);
      match fate
      case Heard => s1.parts[id] == a.0 && r.Some? && r.value == a.1
      case Unheard => s1.parts[id] == a.0 && r.None?
      case Undelivered => s1.parts[id] == s.parts[id] && r.None?
  {
  }

  /** The way there and the way back. */
  method Converse(p: Participant, m: Log, there: nat, back: nat, patience: nat, patienceBack: nat)
      returns (rc: int, rmsg: string, ghost fate: Protocol.Fate)
    requires Answer(p.State(), m).1 != AssertionFailure
    requires Fits(LogMessage(m)) && Fits(ReplyText(Answer(p.State(), m).1))
    modifies p, p.lg, p.kvdb
    ensures var a := Answer(old(p.State()), m);
      match fate
      case Heard => p.State() == a.0 && rc == KV_OK && rmsg == ReplyText(a.1)
      case Unheard => p.State() == a.0 && rc != KV_OK
      case Undelivered => p.State() == old(p.State()) && rc != KV_OK
    ensures var reply := ReplyText(Answer(old(p.State()), m).1);
      && (there < |Frame(LogMessage(m))| <==> fate == Protocol.Undelivered)
      && (there >= |Frame(LogMessage(m))| && back >= |Frame(reply)| && patienceBack == 0 ==> fate == Protocol.Heard)
  {
    var sent;
    ghost var arrived;
    sent, arrived := Request(p, m, there, patience);
    rc, rmsg := Response(sent, back, patienceBack, ReplyText(Answer(old(p.State()), m).1));
    fate := if !arrived then Protocol.Undelivered else if rc == KV_OK then Protocol.Heard else Protocol.Unheard;
  }

  /** The way there. */
  method Request(p: Participant, m: Log, there: nat, patience: nat) returns (sent: string, ghost arrived: bool)
    requires Answer(p.State(), m).1 != AssertionFailure && Fits(LogMessage(m))
    modifies p, p.lg, p.kvdb
    ensures arrived == (there >= |Frame(LogMessage(m))|)
    ensures var a := Answer(old(p.State()), m);
      if arrived then p.State() == a.0 && sent == Frame(ReplyText(a.1)) else p.State() == old(p.State()) && sent == ""
  {
    Received(LogMessage(m), there);
    var net := new Stream(Cut(Frame(LogMessage(m)), there), patience);
    var rc;
    rc, sent := Working(p, net, m);
    arrived := rc == KV_OK;
  }

  /** The way back. */
  method Response(sent: string, back: nat, patience: nat, ghost reply: string) returns (rc: int, rmsg: string)
    requires Fits(reply) && (sent == "" || sent == Frame(reply))
    ensures rc == KV_OK ==> sent != "" && rmsg == reply
    ensures sent != "" && back >= |sent| && patience == 0 ==> rc == KV_OK
  {
    Received(reply, back);
    var net := new Stream(Cut(sent, back), patience);
    rc, rmsg := RecvReply(net, "");
  }

  /** The part of `s` that gets through. */
  function Cut(s: string, n: nat): string {
    if n < |s| then s[..n] else s
  }

  /** A frame is decoded if all of it gets through, and not otherwise. */
  lemma Received(m: string, n: nat)
    requires Fits(m)
    ensures DecodeAt(Cut(Frame(m), n), 0) == if n >= |Frame(m)| then Some((m, |Frame(m)|)) else None
    ensures DecodeAt("", 0).None?
  {
    WholeFrame(m);
    if n < |Frame(m)| { BrokenOff(m, n); }
  }

  lemma BrokenOff(m: string, n: nat)
    requires Fits(m) && n < |Frame(m)|
    ensures DecodeAt(Frame(m)[..n], 0).None?
  {
    var f, s := Frame(m), Frame(m)[..n];
    if n > 0 { assert s[0] == f[0] == MARK; }
    if n >= NETWORK_HEADER_LEN {
      assert s[1..NETWORK_HEADER_LEN] == f[1..NETWORK_HEADER_LEN] == Numtob(|m|);
      NumberRoundTrip(|m|, 8);
    }
  }

  lemma WholeFrame(m: string)
    requires Fits(m)
    ensures DecodeAt(Frame(m), 0) == Some((m, |Frame(m)|))
  {
    FrameDecoded("", m, "");
    assert "" + Frame(m) + "" == Frame(m);
  }
}
