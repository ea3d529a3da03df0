/** The decoder that takes a client's command off the connection, character by character. */
module Commands {
  import opened Decimal
  import opened Lists
  import opened Options
  import opened Resp
  import opened Sealing
  import opened Streams
  import opened Frames

  /** The first place at or after `from` without a digit, or the end. */
  function DigitsEnd(s: string, from: nat): (e: nat)
    requires from <= |s|
    ensures from <= e <= |s| && Digits(s[from..e])
    ensures e < |s| ==> !IsDigit(s[e])
    decreases |s| - from
  {
    if from < |s| && IsDigit(s[from]) then DigitsEnd(s, from + 1) else from
  }

  /** A header line: anything up to the mark, then digits, then a line end.  Gives the digits and how far
      the line ends from `pos`. */
  function HeaderAt(s: string, pos: nat, mark: char): Option<(string, nat)> {
    var k := FindChar(s, mark, pos);
    if k.None? then None
    else
      var e := DigitsEnd(s, k.value + 1);
      if e + 2 > |s| || s[e] != '\r' || s[e + 1] != '\n' then None else Some((s[k.value + 1..e], e + 2 - pos))
  }

  /** One element: a header line with its length, and its characters.  The line end after them is left. */
  function ItemAt(s: string, pos: nat): Option<(string, nat)> {
    var h := HeaderAt(s, pos, '$');
    if h.None? then None
    else
      var begin, n := pos + h.value.1, Read(h.value.0);
      if n < 0 || begin + n > |s| then None else Some((s[begin..begin + n], h.value.1 + n))
  }

  /** A command, its elements read with `one`: the elements, and where they end. */
  function CommandWith(one: Reader<string>, s: string, pos: nat): Option<(seq<string>, nat)> {
    var h := HeaderAt(s, pos, '*');
    if h.None? then None
    else
      var n := Read(h.value.0);
      ReadAll(one, s, pos + h.value.1, if n < 0 then 0 else n)
  }

  function CommandAt(s: string, pos: nat): Option<(seq<string>, nat)> {
    CommandWith(ItemAt, s, pos)
  }

  // ---- the decoder ----

  /** What of a header line has been seen: nothing yet, the mark and some digits, or the carriage return too. */
  ghost predicate SeenOf(s: string, start: nat, pos: nat, mark: char, step: int, header: string) {
    && start <= pos <= |s|
    && var k := FindChar(s, mark, start);
       match step
       case 0 => header == "" && mark !in s[start..pos]
       case 1 => k.Some? && pos == k.value + 1 + |header| && header == s[k.value + 1..pos] && Digits(header)
       case 2 =>
         && k.Some? && pos == k.value + 2 + |header| && header == s[k.value + 1..pos - 1] && Digits(header)
         && s[pos - 1] == '\r'
       case _ => false
  }

  ghost predicate Seen(s: string, start: nat, pos: nat, mark: char, step: int, header: string) {
    forall x {:trigger Open(x)} :: x == s ==> SeenOf(x, start, pos, mark, step, header)
  }

  lemma NothingSeen(s: string, start: nat, mark: char)
    requires start <= |s|
    ensures Seen(s, start, start, mark, 0, "")
  {
    assert SeenOf(s, start, start, mark, 0, "");
  }

  lemma {:induction false} DigitsEndIs(s: string, from: nat, e: nat)
    requires from <= e <= |s| && Digits(s[from..e]) && (e < |s| ==> !IsDigit(s[e]))
    ensures DigitsEnd(s, from) == e
    decreases e - from
  {
    if from < e {
      assert s[from] == s[from..e][0];
      assert s[from + 1..e] == s[from..e][1..];
      DigitsEndIs(s, from + 1, e);
    }
  }

  /** A line that does not go on as it should is none, however it goes on. */
  lemma NoHeader(s: string, start: nat, pos: nat, mark: char, step: int, header: string)
    requires Seen(s, start, pos, mark, step, header) && pos <= |s|
    requires pos == |s| || (step == 1 && s[pos] != '\r' && !IsDigit(s[pos])) || (step == 2 && s[pos] != '\n')
    ensures HeaderAt(s, start, mark).None?
  {
    assert Open(s);
    var k := FindChar(s, mark, start);
    if step == 0 {
      forall j | start <= j < |s| ensures s[j] != mark {
        assert s[j] == s[start..pos][j - start];
      }
    } else {
      DigitsEndIs(s, k.value + 1, k.value + 1 + |header|);
    }
  }

  /** Reads a header line one character at a time.  A caller that is not `patient` gives up on a timeout. */
  method RecvLine(peer: Stream, mark: char, patient: bool) returns (rc: int, header: string)
    requires peer.Valid() && mark != '\r' && mark != '\n' && !IsDigit(mark)
    modifies peer
    ensures peer.Valid() && peer.timeouts <= old(peer.timeouts)
    ensures var h := HeaderAt(peer.data, old(peer.pos), mark);
      if rc == KV_OK then h.Some? && header == h.value.0 && peer.pos == old(peer.pos) + h.value.1
      else if rc == KV_TIMEOUT then !patient && peer.timeouts < old(peer.timeouts)
      else (rc == KV_BAD_COMMAD || rc == KV_NETWORK_CLOSE) && h.None?
  {
    ghost var start := peer.pos;
    header := "";
    var step := 0;
    NothingSeen(peer.data, start, mark);
    while true
      invariant peer.Valid() && 0 <= step <= 2 && Seen(peer.data, start, peer.pos, mark, step, header)
      invariant step == 0 ==> header == ""
      invariant peer.timeouts <= old(peer.timeouts)
      decreases peer.Left()
    {
      var headerBuf;
      ghost var before := peer.pos;
      rc, headerBuf := peer.RecvNF(1);
      if rc == KV_NETWORK_CLOSE { NoHeader(peer.data, start, peer.pos, mark, step, header); return; }
      if rc == KV_TIMEOUT {
        if !patient { return; }
        continue;
      }
      var c := headerBuf[0];
      assert c == peer.data[before];
      if step == 0 {
        if c == mark {
          MarkSeen(peer.data, start, before, mark);
          step := 1;
        } else {
          NotYetSeen(peer.data, start, before, mark);
        }
      } else if step == 1 {
        if c == '\r' {
          ReturnSeen(peer.data, start, before, mark, header);
          step := 2;
          continue;
        }
        if c < '0' || c > '9' {
          NoHeader(peer.data, start, before, mark, step, header);
          rc := KV_BAD_COMMAD;
          return;
        }
        DigitSeen(peer.data, start, before, mark, header);
        header := header + headerBuf;
      } else {
        if c == '\n' { break; }
        NoHeader(peer.data, start, before, mark, step, header);
        rc := KV_BAD_COMMAD;
        return;
      }
    }
    HeaderSeen(peer.data, start, peer.pos, mark, header);
  }

  lemma NotYetSeen(s: string, start: nat, pos: nat, mark: char)
    requires Seen(s, start, pos, mark, 0, "") && pos < |s| && s[pos] != mark
    ensures Seen(s, start, pos + 1, mark, 0, "")
  {
    assert Open(s);
    assert s[start..pos + 1] == s[start..pos] + [s[pos]];
    assert SeenOf(s, start, pos + 1, mark, 0, "");
  }

  lemma DigitSeen(s: string, start: nat, pos: nat, mark: char, header: string)
    requires Seen(s, start, pos, mark, 1, header) && pos < |s| && IsDigit(s[pos])
    ensures Seen(s, start, pos + 1, mark, 1, header + s[pos..pos + 1])
  {
    assert Open(s);
    assert header + s[pos..pos + 1] == header + [s[pos]];
    assert SeenOf(s, start, pos + 1, mark, 1, header + s[pos..pos + 1]);
  }

  lemma ReturnSeen(s: string, start: nat, pos: nat, mark: char, header: string)
    requires Seen(s, start, pos, mark, 1, header) && pos < |s| && s[pos] == '\r'
    ensures Seen(s, start, pos + 1, mark, 2, header)
  {
    assert Open(s);
    assert SeenOf(s, start, pos + 1, mark, 2, header);
  }

  lemma MarkSeen(s: string, start: nat, pos: nat, mark: char)
    requires Seen(s, start, pos, mark, 0, "") && pos < |s| && s[pos] == mark
    ensures Seen(s, start, pos + 1, mark, 1, "")
  {
    assert Open(s);
    FirstChar(s, start, pos, mark);
    assert SeenOf(s, start, pos + 1, mark, 1, "");
  }

  lemma {:induction false} FirstChar(s: string, from: nat, k: nat, c: char)
    requires from <= k < |s| && s[k] == c && c !in s[from..k]
    ensures FindChar(s, c, from) == Some(k)
    decreases k - from
  {
    if from < k {
      assert s[from] == s[from..k][0] && s[from + 1..k] == s[from..k][1..];
      FirstChar(s, from + 1, k, c);
    }
  }

  lemma HeaderSeen(s: string, start: nat, pos: nat, mark: char, header: string)
    requires 0 < pos <= |s| && Seen(s, start, pos - 1, mark, 2, header) && s[pos - 1] == '\n'
    ensures HeaderAt(s, start, mark) == Some((header, pos - start))
  {
    assert Open(s);
    var k := FindChar(s, mark, start).value;
    DigitsEndIs(s, k + 1, k + 1 + |header|);
  }

  /** Reads one element. */
  method RecvItem(peer: Stream) returns (rc: int, content: string)
    requires peer.Valid()
    modifies peer
    ensures peer.Valid() && peer.timeouts <= old(peer.timeouts)
    ensures match ItemAt(peer.data, old(peer.pos))
            case Some(item) => rc == KV_OK && content == item.0 && peer.pos == old(peer.pos) + item.1
            case None => rc == KV_BAD_COMMAD || rc == KV_NETWORK_CLOSE
  {
    content := "";
    var header;
    rc, header := RecvLine(peer, '$', true);
    if rc != KV_OK { return; }
    NotNegative(peer.data, old(peer.pos), '$');
    var contentLen := Read(header);
    ghost var begin := peer.pos;
    while |content| != contentLen
      invariant peer.Valid() && peer.pos == begin + |content| && |content| <= contentLen
      invariant peer.timeouts <= old(peer.timeouts)
      invariant content == peer.data[begin..peer.pos] && rc != KV_NETWORK_CLOSE
      invariant |content| == contentLen || content == ""
      decreases contentLen - |content|, peer.timeouts
    {
      var chunk;
      rc, chunk := peer.Recv(contentLen - |content|);
      if rc == KV_NETWORK_CLOSE { return; }
      if rc == KV_OK { content := content + chunk; }
    }
    rc := KV_OK;
  }

  lemma NotNegative(s: string, pos: nat, mark: char)
    requires HeaderAt(s, pos, mark).Some?
    ensures Read(HeaderAt(s, pos, mark).value.0) >= 0
  {
    ReadsNat(HeaderAt(s, pos, mark).value.0);
  }

  /** Receives a command. */
  method RecvCommand(peer: Stream) returns (rc: int, str: seq<string>)
    requires peer.Valid()
    modifies peer
    ensures peer.Valid()
    ensures var c := CommandAt(peer.data, old(peer.pos));
      if rc == KV_OK then c == Some((str, peer.pos))
      else if rc == KV_TIMEOUT then peer.timeouts < old(peer.timeouts)
      else (rc == KV_BAD_COMMAD || rc == KV_NETWORK_CLOSE) && c.None?
  {
    Named(ItemAt);
    rc, str := RecvCommandWith(peer, ItemAt);
  }

  method RecvCommandWith(peer: Stream, ghost one: Reader<string>) returns (rc: int, str: seq<string>)
    requires peer.Valid() && IsItem(one)
    modifies peer
    ensures peer.Valid()
    ensures var c := CommandWith(one, peer.data, old(peer.pos));
      if rc == KV_OK then c == Some((str, peer.pos))
      else if rc == KV_TIMEOUT then peer.timeouts < old(peer.timeouts)
      else (rc == KV_BAD_COMMAD || rc == KV_NETWORK_CLOSE) && c.None?
  {
    str := [];
    var header;
    rc, header := RecvLine(peer, '*', false);
    if rc != KV_OK { return; }
    NotNegative(peer.data, old(peer.pos), '*');
    var strNum := Read(header);
    rc, str := RecvItems(peer, strNum, one);
  }

  /** `one` is `ItemAt`, sealed. */
  ghost predicate IsItem(one: Reader<string>) {
    forall s {:trigger Open(s)} :: s == "" ==> one == ItemAt
  }

  lemma Named(one: Reader<string>)
    requires one == ItemAt
    ensures IsItem(one)
  {
  }

  method RecvNext(peer: Stream, ghost one: Reader<string>) returns (rc: int, content: string)
    requires peer.Valid() && IsItem(one)
    modifies peer
    ensures peer.Valid() && peer.timeouts <= old(peer.timeouts)
    ensures match one(peer.data, old(peer.pos))
            case Some(item) => rc == KV_OK && content == item.0 && peer.pos == old(peer.pos) + item.1
            case None => rc == KV_BAD_COMMAD || rc == KV_NETWORK_CLOSE
  {
    assert Open("");
    rc, content := RecvItem(peer);
  }

  /** Receives `n` elements. */
  method RecvItems(peer: Stream, n: nat, ghost one: Reader<string>) returns (rc: int, str: seq<string>)
    requires peer.Valid() && IsItem(one)
    modifies peer
    ensures peer.Valid()
    ensures var all := ReadAll(one, peer.data, old(peer.pos), n);
      if rc == KV_OK then all == Some((str, peer.pos))
      else (rc == KV_BAD_COMMAD || rc == KV_NETWORK_CLOSE) && all.None?
  {
    rc, str := KV_OK, [];
    ghost var begin := peer.pos;
    var i := 0;
    while i < n
      invariant peer.Valid() && i <= n && rc == KV_OK && ReadAll(one, peer.data, begin, i) == Some((str, peer.pos))
    {
      var content;
      OneRead(one, peer.data, begin, i, str, peer.pos, one(peer.data, peer.pos));
      rc, content := RecvNext(peer, one);
      if rc != KV_OK {
        NoneStays(one, peer.data, begin, i + 1, n);
        return;
      }
      str := str + [content];
      i := i + 1;
    }
  }

  // ---- what the decoder makes of a printed command ----

  /** An element as the decoder sees it. */
  function Item(x: string): string {
    "$" + Print(|x|) + CRLF + x
  }

  /** An element is read after anything that is not the mark. */
  lemma ItemRoundTrip(before: string, g: string, x: string, rest: string)
    requires '$' !in g
    ensures ItemAt(before + g + Item(x) + rest, |before|) == Some((x, |g| + |Item(x)|))
  {
    var s := before + g + Item(x) + rest;
    HeaderRoundTrip(before, g, '$', |x|, x + rest);
    assert s == before + g + ("$" + Print(|x|) + CRLF) + (x + rest);
    ReadPrint(|x|, "");
    assert PrintInt(|x|) + "" == Print(|x|);
    var begin := |before| + |g| + 1 + |Print(|x|)| + 2;
    assert s[begin..begin + |x|] == x;
  }

  lemma HeaderRoundTrip(before: string, g: string, mark: char, n: nat, rest: string)
    requires mark !in g
    ensures HeaderAt(before + g + ([mark] + Print(n) + CRLF) + rest, |before|, mark) ==
        Some((Print(n), |g| + 1 + |Print(n)| + 2))
  {
    var s, k := before + g + ([mark] + Print(n) + CRLF) + rest, |before| + |g|;
    assert s[|before|..k] == g;
    FirstChar(s, |before|, k, mark);
    PrintsDigits(n);
    var e := k + 1 + |Print(n)|;
    assert s[k + 1..e] == Print(n);
    DigitsEndIs(s, k + 1, e);
  }

  ghost predicate ReadsItems(one: Reader<string>) {
    forall before: string, g: string, x: string, rest: string {:trigger before + g + Item(x) + rest} ::
      '$' !in g ==> one(before + g + Item(x) + rest, |before|) == Some((x, |g| + |Item(x)|))
  }

  lemma ItemsRead()
    ensures ReadsItems(ItemAt)
  {
    forall before: string, g: string, x: string, rest: string {:trigger before + g + Item(x) + rest} | '$' !in g
      ensures ItemAt(before + g + Item(x) + rest, |before|) == Some((x, |g| + |Item(x)|))
    {
      ItemRoundTrip(before, g, x, rest);
    }
  }

  /** Where the decoder stands after the elements `v`: before the line end of the last one. */
  function Stop(v: seq<string>): (n: int)
    ensures v != [] ==> n >= 0
  {
    if v == [] then 0 else |Strings(v)| - 2
  }

  lemma {:induction false} ItemsReadBack(one: Reader<string>, before: string, v: seq<string>, rest: string)
    requires ReadsItems(one)
    ensures ReadAll(one, before + Strings(v) + rest, |before|, |v|) == Some((v, |before| + Stop(v)))
    decreases |v|
  {
    if v != [] {
      var w, x := v[..|v| - 1], v[|v| - 1];
      var s := before + Strings(v) + rest;
      ItemsReadBack(one, before, w, Item(x) + CRLF + rest);
      assert GetStringMessage(x) == Item(x) + CRLF;
      assert s == before + Strings(w) + (Item(x) + CRLF + rest);
      ItemNext(one, before, w, x, rest);
      assert v == w + [x];
    }
  }

  /** The next element, after the line end of the one before. */
  lemma ItemNext(one: Reader<string>, before: string, w: seq<string>, x: string, rest: string)
    requires ReadsItems(one)
    ensures var s := before + Strings(w) + (Item(x) + CRLF + rest);
      one(s, |before| + Stop(w)) == Some((x, |Strings(w)| - Stop(w) + |Item(x)|))
  {
    var s := before + Strings(w) + (Item(x) + CRLF + rest);
    if w == [] {
      assert s == before + "" + Item(x) + (CRLF + rest);
    } else {
      var m := GetStringMessage(w[|w| - 1]);
      var body := Strings(w)[..Stop(w)];
      assert Strings(w) == Strings(w[..|w| - 1]) + m;
      assert m[|m| - 2..] == CRLF;
      assert Strings(w) == body + CRLF;
      assert s == (before + body) + CRLF + Item(x) + (CRLF + rest);
    }
  }

  /** A printed command is received as the list it was printed from, however the stream is cut into pieces,
      after anything without an asterisk; the line end of the last element is not read. */
  lemma CommandRoundTrip(before: string, g: string, v: seq<string>, rest: string)
    requires '*' !in g
    ensures CommandAt(before + g + ArrayMessage(v) + rest, |before|) ==
      Some((v, |before| + |g| + |ArrayHeader(|v|)| + Stop(v)))
  {
    ItemsRead();
    CommandReadBack(ItemAt, before, g, v, rest);
  }

  lemma HeaderAndItems(before: string, g: string, v: seq<string>, rest: string)
    ensures var s := before + g + ArrayMessage(v) + rest;
      && s == before + g + ArrayHeader(|v|) + (Strings(v) + rest)
      && s == (before + g + ArrayHeader(|v|)) + Strings(v) + rest
  {
  }

  lemma CommandReadBack(one: Reader<string>, before: string, g: string, v: seq<string>, rest: string)
    requires '*' !in g && ReadsItems(one)
    ensures CommandWith(one, before + g + ArrayMessage(v) + rest, |before|) ==
      Some((v, |before| + |g| + |ArrayHeader(|v|)| + Stop(v)))
  {
    HeaderAndItems(before, g, v, rest);
    HeaderRoundTrip(before, g, '*', |v|, Strings(v) + rest);
    ReadPrint(|v|, "");
    assert PrintInt(|v|) + "" == Print(|v|);
    ItemsReadBack(one, before + g + ArrayHeader(|v|), v, rest);
  }

  /** The decoder and the parser agree on every printed command. */
  lemma DecoderAgreesWithParser(s: string, v: seq<string>, rest: string)
    requires s == ArrayMessage(v) + rest
    ensures CommandAt(s, 0) == Some((v, |ArrayHeader(|v|)| + Stop(v)))
    ensures ParseArray(s) == Some((v, |ArrayMessage(v)|))
  {
    DecodedFromStart(s, v, rest);
    ArrayRoundTrip(v, rest);
  }

  lemma DecodedFromStart(s: string, v: seq<string>, rest: string)
    requires s == ArrayMessage(v) + rest
    ensures CommandAt(s, 0) == Some((v, |ArrayHeader(|v|)| + Stop(v)))
  {
    ItemsRead();
    FromStart(ItemAt, s, v, rest);
  }

  lemma FromStart(one: Reader<string>, s: string, v: seq<string>, rest: string)
    requires s == ArrayMessage(v) + rest && ReadsItems(one)
    ensures CommandWith(one, s, 0) == Some((v, |ArrayHeader(|v|)| + Stop(v)))
  {
    CommandReadBack(one, "", "", v, rest);
    assert "" + "" + ArrayMessage(v) + rest == s;
  }
}
