/** The frames in which messages travel: a mark, the length in eight bytes, the message. */
module Frames {
  import opened Lists
  import opened Options
  import opened Streams

  const MARK := '~'
  const NETWORK_HEADER_LEN: nat := 9

  // ---- numbers in bytes ----

  /** 256 to the power of `k`. */
  function Limit(k: nat): (n: nat)
    ensures n > 0
  {
    if k == 0 then 1 else 256 * Limit(k - 1)
  }

  /** The `k` low bytes of `n`, the lowest first. */
  function LowBytes(n: nat, k: nat): (s: string)
    ensures |s| == k
  {
    if k == 0 then "" else [(n % 256) as char] + LowBytes(n / 256, k - 1)
  }

  function Numtob(n: nat): string {
    LowBytes(n, 8)
  }

  function Btonum(s: string): nat {
    if s == "" then 0 else s[0] as int + 256 * Btonum(s[1..])
  }

  /** A number that fits comes back. */
  lemma {:induction false} NumberRoundTrip(n: nat, k: nat)
    requires n < Limit(k)
    ensures Btonum(LowBytes(n, k)) == n
  {
    if k > 0 {
      NumberRoundTrip(n / 256, k - 1);
      assert LowBytes(n, k)[1..] == LowBytes(n / 256, k - 1);
    }
  }

  // ---- frames ----

  function Frame(m: string): string {
    [MARK] + Numtob(|m|) + m
  }

  /** The first place at or after `from` where `c` stands. */
  function FindChar(s: string, c: char, from: nat): (i: Option<nat>)
    ensures i.Some? ==> from <= i.value < |s| && s[i.value] == c && c !in s[from..i.value]
    ensures i.None? ==> forall j :: from <= j < |s| ==> s[j] != c
    decreases |s| - from
  {
    if from >= |s| then None
    else if s[from] == c then Some(from)
    else FindChar(s, c, from + 1)
  }

  /** The first frame at or after `pos`: its message, and how far it ends from `pos`. */
  function DecodeAt(s: string, pos: nat): Option<(string, nat)> {
    var k := FindChar(s, MARK, pos);
    if k.None? || k.value + NETWORK_HEADER_LEN > |s| then None
    else
      var begin := k.value + NETWORK_HEADER_LEN;
      var n := Btonum(s[k.value + 1..begin]);
      if begin + n > |s| then None else Some((s[begin..begin + n], begin + n - pos))
  }

  /** The length of the message can be written in a frame. */
  predicate Fits(m: string) {
    |m| < Limit(8)
  }

  /** A frame is decoded to its message and no further, after any characters that are not the mark. */
  lemma FrameRoundTrip(before: string, garbage: string, m: string, rest: string)
    requires MARK !in garbage && Fits(m)
    ensures DecodeAt(before + garbage + Frame(m) + rest, |before|) == Some((m, |garbage| + |Frame(m)|))
  {
    var s, k := before + garbage + Frame(m) + rest, |before| + |garbage|;
    FirstMark(s, |before|, k, garbage);
    var begin := k + NETWORK_HEADER_LEN;
    assert s[k + 1..begin] == Numtob(|m|);
    NumberRoundTrip(|m|, 8);
    assert s[begin..begin + |m|] == m;
  }

  lemma {:induction false} FirstMark(s: string, from: nat, k: nat, garbage: string)
    requires from <= k < |s| && s[k] == MARK && s[from..k] == garbage && MARK !in garbage
    ensures FindChar(s, MARK, from) == Some(k)
    decreases k - from
  {
    if from < k {
      assert s[from] == garbage[0];
      FirstMark(s, from + 1, k, garbage[1..]);
    }
  }

  lemma FramesReadBack()
    ensures ReadsBack(DecodeAt, Frame, Fits)
  {
    forall m: string, before: string, rest: string {:trigger before + Frame(m) + rest} | Fits(m)
      ensures DecodeAt(before + Frame(m) + rest, |before|) == Some((m, |Frame(m)|))
    {
      FrameRoundTrip(before, "", m, rest);
      assert before + "" == before;
    }
  }

  /** A sequence of frames is decoded to the same sequence of messages, frame by frame. */
  lemma SequenceRoundTrip(before: string, ms: seq<string>, rest: string)
    requires forall m :: m in ms ==> Fits(m)
    ensures ReadAll(DecodeAt, before + PrintAll(Frame, ms) + rest, |before|, |ms|) ==
        Some((ms, |before| + |PrintAll(Frame, ms)|))
  {
    FramesReadBack();
    AllReadBack(DecodeAt, Frame, Fits, before, ms, rest);
  }

  // ---- receiving ----

  /** Receives the header of the next frame.  The mark and the length are collected however they come in
      pieces; no more than the header is taken. */
  method RecvHeader(peer: Stream) returns (rc: int, header: string)
    requires peer.Valid()
    modifies peer
    ensures peer.Valid()
    ensures var k := FindChar(peer.data, MARK, old(peer.pos));
      if k.Some? && k.value + NETWORK_HEADER_LEN <= |peer.data| then
        rc == KV_OK && peer.pos == k.value + NETWORK_HEADER_LEN && header == peer.data[k.value..peer.pos]
      else rc == KV_NETWORK_CLOSE
  {
    ghost var start, k := peer.pos, FindChar(peer.data, MARK, peer.pos);
    header := "";
    var headerLen := 0;
    rc := KV_OK;
    while headerLen != NETWORK_HEADER_LEN
      invariant peer.Valid() && start <= peer.pos && headerLen == |header| <= NETWORK_HEADER_LEN
      invariant headerLen == 0 ==> MARK !in peer.data[start..peer.pos]
      invariant headerLen > 0 ==> k.Some? && peer.pos == k.value + headerLen && header == peer.data[k.value..peer.pos]
      invariant headerLen > 0 ==> rc != KV_NETWORK_CLOSE
      decreases peer.Left()
    {
      var headerBuf;
      ghost var before := peer.pos;
      rc, headerBuf := peer.RecvNF(NETWORK_HEADER_LEN - headerLen);
      if rc == KV_NETWORK_CLOSE {
        NotAMark(peer.data, start, peer.pos, k, headerLen);
        return;
      }
      if rc == KV_OK {
        if headerLen == 0 {
          var pos := FindChar(headerBuf, MARK, 0);
          MarkInChunk(peer.data, start, before, headerBuf, pos);
          if pos.Some? {
            header := headerBuf[pos.value..];
            headerLen := |headerBuf| - pos.value;
          }
        } else {
          assert peer.data[k.value..peer.pos] == peer.data[k.value..before] + peer.data[before..peer.pos];
          header := header + headerBuf;
          headerLen := headerLen + |headerBuf|;
        }
      }
    }
    rc := KV_OK;
  }

  lemma NoMark(s: string, start: nat, pos: nat, k: Option<nat>)
    requires start <= pos <= |s| && k == FindChar(s, MARK, start) && MARK !in s[start..pos]
    ensures k.Some? ==> k.value >= pos
  {
    forall j | start <= j < pos ensures s[j] != MARK {
      assert s[j] == s[start..pos][j - start];
    }
  }

  /** The whole stream has been read without a mark, or without the whole header after it. */
  lemma NotAMark(s: string, start: nat, pos: nat, k: Option<nat>, headerLen: nat)
    requires start <= pos == |s| && k == FindChar(s, MARK, start) && headerLen < NETWORK_HEADER_LEN
    requires headerLen == 0 ==> MARK !in s[start..pos]
    requires headerLen > 0 ==> k.Some? && pos == k.value + headerLen
    ensures k.None? || k.value + NETWORK_HEADER_LEN > |s|
  {
    if headerLen == 0 { NoMark(s, start, pos, k); }
  }

  /** Where the mark is in a piece is where it is in the stream. */
  lemma MarkInChunk(s: string, start: nat, pos: nat, chunk: string, i: Option<nat>)
    requires start <= pos <= pos + |chunk| <= |s| && chunk == s[pos..pos + |chunk|] && MARK !in s[start..pos]
    requires i == FindChar(chunk, MARK, 0)
    ensures i.Some? ==> FindChar(s, MARK, start) == Some(pos + i.value)
    ensures i.None? ==> MARK !in s[start..pos + |chunk|]
  {
    if i.Some? {
      var k := pos + i.value;
      forall j | start <= j < k ensures s[j] != MARK {
        if j < pos { assert s[j] in s[start..pos]; } else { assert s[j] == chunk[0..i.value][j - pos]; }
      }
      FirstMark(s, start, k, s[start..k]);
    } else {
      forall j | start <= j < pos + |chunk| ensures s[j] != MARK {
        if j < pos { assert s[j] in s[start..pos]; } else { assert s[j] == chunk[j - pos]; }
      }
    }
  }

  /** The participant's receive: the next frame, whatever pieces it comes in, and nothing beyond it; the
      call fails only when the connection closes before the frame is complete. */
  method RecvFrame(peer: Stream) returns (rc: int, content: string)
    requires peer.Valid()
    modifies peer
    ensures peer.Valid()
    ensures match DecodeAt(peer.data, old(peer.pos))
            case Some(f) => rc == KV_OK && content == f.0 && peer.pos == old(peer.pos) + f.1
            case None => rc == KV_NETWORK_CLOSE
  {
    content := "";
    var header;
    rc, header := RecvHeader(peer);
    if rc == KV_NETWORK_CLOSE { return; }
    assert header[1..] == peer.data[peer.pos - 8..peer.pos];
    var contentLen := Btonum(header[1..]);
    ghost var begin := peer.pos;
    while |content| != contentLen
      invariant peer.Valid() && peer.pos == begin + |content| && |content| <= contentLen && rc != KV_NETWORK_CLOSE
      invariant content == peer.data[begin..peer.pos]
      invariant |content| == contentLen || content == ""
      decreases contentLen - |content|, peer.timeouts
    {
      var chunk;
      rc, chunk := peer.Recv(contentLen - |content|);
      if rc == KV_NETWORK_CLOSE { return; }
      if rc == KV_OK { content := content + chunk; }
    }
    rc := KV_OK;
  }

  /** Receives the header of the next frame, giving up on the first timeout. */
  method AskHeader(peer: Stream) returns (rc: int, header: string)
    requires peer.Valid()
    modifies peer
    ensures peer.Valid() && peer.timeouts <= old(peer.timeouts)
    ensures rc == KV_OK ==>
      var k := FindChar(peer.data, MARK, old(peer.pos));
      k.Some? && peer.pos == k.value + NETWORK_HEADER_LEN && header == peer.data[k.value..peer.pos]
    ensures DecodeAt(peer.data, old(peer.pos)).Some? ==> rc == KV_OK || peer.timeouts < old(peer.timeouts)
  {
    ghost var start, k := peer.pos, FindChar(peer.data, MARK, peer.pos);
    header := "";
    rc := KV_OK;
    while |header| != NETWORK_HEADER_LEN
      invariant peer.Valid() && start <= peer.pos && |header| <= NETWORK_HEADER_LEN
      invariant peer.timeouts <= old(peer.timeouts)
      invariant rc == KV_OK
      invariant header == "" ==> MARK !in peer.data[start..peer.pos]
      invariant header != "" ==> k.Some? && peer.pos == k.value + |header| && header == peer.data[k.value..peer.pos]
      decreases |peer.data| - peer.pos
    {
      var headerBuf;
      ghost var before := peer.pos;
      rc, headerBuf := peer.Recv(NETWORK_HEADER_LEN - |header|);
      if rc != KV_OK {
        if rc == KV_NETWORK_CLOSE { CutShort(peer.data, start, before, k, |header|); }
        return;
      }
      if header == "" {
        var pos := FindChar(headerBuf, MARK, 0);
        MarkInChunk(peer.data, start, before, headerBuf, pos);
        if pos.Some? { header := headerBuf[pos.value..]; }
      } else {
        assert peer.data[k.value..peer.pos] == peer.data[k.value..before] + headerBuf;
        header := header + headerBuf;
      }
    }
  }

  /** The coordinator's receive: it gives up on the first timeout.  An empty message leaves `rmsg` alone. */
  method RecvReply(peer: Stream, was: string) returns (rc: int, rmsg: string)
    requires peer.Valid()
    modifies peer
    ensures peer.Valid()
    ensures rc == KV_OK ==>
      var f := DecodeAt(peer.data, old(peer.pos));
      f.Some? && peer.pos == old(peer.pos) + f.value.1 && rmsg == if f.value.0 == "" then was else f.value.0
    ensures DecodeAt(peer.data, old(peer.pos)).Some? ==> rc == KV_OK || peer.timeouts < old(peer.timeouts)
  {
    rmsg := was;
    var header;
    rc, header := AskHeader(peer);
    if rc != KV_OK { return; }
    assert header[1..] == peer.data[peer.pos - 8..peer.pos];
    var contentLen := Btonum(header[1..]);
    if contentLen == 0 { return; }
    rmsg := "";
    ghost var begin := peer.pos;
    while |rmsg| != contentLen
      invariant peer.Valid() && peer.pos == begin + |rmsg| && |rmsg| <= contentLen
      invariant peer.timeouts <= old(peer.timeouts)
      invariant rmsg == peer.data[begin..peer.pos] && rc == KV_OK
      decreases contentLen - |rmsg|
    {
      var chunk;
      rc, chunk := peer.RecvNF(contentLen - |rmsg|);
      if rc != KV_OK { return; }
      rmsg := rmsg + chunk;
    }
  }

  /** The stream ends before the header that was asked for. */
  lemma CutShort(s: string, start: nat, pos: nat, k: Option<nat>, have: nat)
    requires start <= pos <= |s| && k == FindChar(s, MARK, start) && have < NETWORK_HEADER_LEN
    requires pos + NETWORK_HEADER_LEN - have > |s|
    requires have == 0 ==> MARK !in s[start..pos]
    requires have > 0 ==> k.Some? && pos == k.value + have
    ensures DecodeAt(s, start).None?
  {
    if have == 0 { NoMark(s, start, pos, k); }
  }
}
