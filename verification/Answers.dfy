/** What the text of an answer tells whoever receives it. */
module Answers {
  import opened Decimal
  import opened Numerals
  import opened Options
  import opened Replica
  import opened Resp
  import opened Wire
  import opened Messages

  /** The integer `n` on the wire: a colon, the number in base ten, a line end. */
  ghost predicate TellsCount(text: string, n: nat) {
    && ParserIntergerMessage(text) == Some((n, |text|))
    && forall d {:trigger Numeral(d, n)} :: Numeral(d, n) ==> text == ":" + d + "\r\n"
  }

  /** The string `v` on the wire, as a list of one. */
  ghost predicate TellsValue(text: string, v: string) {
    && ParseArray(text) == Some(([v], |text|))
    && forall d {:trigger Numeral(d, |v|)} :: Numeral(d, |v|) ==> text == "*1\r\n$" + d + "\r\n" + v + "\r\n"
  }

  /** The text says what the answer is, to the parser and byte by byte. */
  ghost predicate Tells(text: string, r: Reply) {
    match r
    case ErrorReply => text == "-ERROR\r\n" && ParserSuccessMessage(text) == Some((false, |text|))
    case OkReply => text == "+OK\r\n" && ParserSuccessMessage(text) == Some((true, |text|))
    case CountReply(n) => TellsCount(text, n)
    case ValueReply(v) => TellsValue(text, v)
    case PreReply => text == "PRE"
    case TxidReply(t) => Numeral(text, t) && Read(text) == t
    case LogReply(l) => text == LogMessage(l)
    case NoReply => text == ""
    case AssertionFailure => false
  }

  lemma CountTells(n: nat)
    ensures TellsCount(GetIntergerMessage(n), n)
  {
    var text := GetIntergerMessage(n);
    IntergerRoundTrip(n, "");
    assert text + "" == text;
    forall d {:trigger Numeral(d, n)} | Numeral(d, n) ensures text == ":" + d + "\r\n" {
      NumeralIsPrint(d, n);
    }
  }

  lemma ValueTells(v: string)
    ensures TellsValue(ArrayMessage([v]), v)
  {
    var text := ArrayMessage([v]);
    ArrayRoundTrip([v], "");
    assert text + "" == text;
    forall d {:trigger Numeral(d, |v|)} | Numeral(d, |v|) ensures text == "*1\r\n$" + d + "\r\n" + v + "\r\n" {
      OneValueText(d, v);
    }
  }

  lemma OneValueText(d: string, v: string)
    requires Numeral(d, |v|)
    ensures ArrayMessage([v]) == "*1\r\n$" + d + "\r\n" + v + "\r\n"
  {
    assert Worth("1") == 1 && Numeral("1", 1);
    assert Lengths([d], [v]);
    WireText("1", [d], [v], "1", 1);
    OneWritten([d], [v]);
  }

  /** Every answer is told by its text. */
  lemma ReplyTells(r: Reply)
    requires !r.AssertionFailure?
    ensures Tells(ReplyText(r), r)
  {
    match r
    case CountReply(n) => CountTells(n);
    case ValueReply(v) => ValueTells(v);
    case TxidReply(t) =>
      PrintIsNumeral(t);
      ReadPrint(t, "");
      assert Print(t) + "" == Print(t);
    case ErrorReply => StatusRoundTrip("");
    case OkReply => StatusRoundTrip("");
    case _ =>
  }

  /** The kind of an answer shows in the first character of its text. */
  lemma Starts(text: string, r: Reply)
    requires Tells(text, r)
    ensures if text == "" then r == NoReply
            else if text[0] == '-' then r == ErrorReply
            else if text[0] == '+' then r == OkReply
            else if text[0] == ':' then r.CountReply?
            else if text[0] == '*' then r.ValueReply?
            else if text[0] == 'P' then r == PreReply
            else if text[0] == 'T' then r.LogReply?
            else r.TxidReply?
  {
    match r
    case LogReply(l) => MessageStarts(l);
    case TxidReply(_) => assert IsDigit(text[0]);
    case _ =>
  }

  /** No text tells two answers. */
  lemma OneAnswerTold(text: string, r: Reply, q: Reply)
    requires Tells(text, r) && Tells(text, q)
    ensures r == q
  {
    Starts(text, r);
    Starts(text, q);
    if r.LogReply? { MessagesDiffer(r.l, q.l); }
  }
}
