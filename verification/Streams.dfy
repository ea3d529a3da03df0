/** A connection, seen from the receiving end. */
module Streams {
  const KV_OK: int := 0
  const KV_TIMEOUT: int := -3
  const KV_NETWORK_CLOSE: int := -7
  const KV_BAD_COMMAD: int := -11

  /** `data` is all the peer ever sends and `pos` what has been received of it.  A wait for data can time
      out, `timeouts` more times; a read gives any nonempty part of what was asked for. */
  class Stream {
    const data: string
    var pos: nat
    var timeouts: nat

    constructor (all: string, patience: nat)
      ensures data == all && pos == 0 && timeouts == patience && Valid()
    {
      data, pos, timeouts := all, 0, patience;
    }

    predicate Valid()
      reads this
    {
      pos <= |data|
    }

    /** How much can still happen on the connection. */
    ghost function Left(): nat
      requires Valid()
      reads this
    {
      timeouts + |data| - pos
    }

    /** Reads at least one and at most `len` characters. */
    method RecvNF(len: nat) returns (rc: int, chunk: string)
      requires Valid() && len > 0
      modifies this
      ensures Valid() && old(pos) <= pos && timeouts <= old(timeouts)
      ensures rc == KV_OK || rc == KV_TIMEOUT || rc == KV_NETWORK_CLOSE
      ensures rc == KV_OK ==> 0 < |chunk| <= len && pos == old(pos) + |chunk| && chunk == data[old(pos)..pos]
      ensures rc == KV_TIMEOUT ==> pos == old(pos) && timeouts < old(timeouts)
      ensures rc == KV_NETWORK_CLOSE ==> pos == old(pos) == |data|
      ensures rc != KV_NETWORK_CLOSE ==> Left() < old(Left())
    {
      var late := *;
      if late && timeouts > 0 {
        timeouts := timeouts - 1;
        return KV_TIMEOUT, "";
      }
      if pos == |data| { return KV_NETWORK_CLOSE, ""; }
      var most: nat := if len < |data| - pos then len else |data| - pos;
      var n: nat :| 0 < n <= most;
      chunk := data[pos..pos + n];
      pos := pos + n;
      return KV_OK, chunk;
    }

    /** Reads exactly `len` characters; when the connection closes before they have come, they are lost. */
    method Recv(len: nat) returns (rc: int, chunk: string)
      requires Valid()
      modifies this
      ensures Valid() && old(pos) <= pos && timeouts <= old(timeouts)
      ensures rc == KV_OK || rc == KV_TIMEOUT || rc == KV_NETWORK_CLOSE
      ensures rc == KV_OK ==> |chunk| == len && pos == old(pos) + len && chunk == data[old(pos)..pos]
      ensures rc == KV_TIMEOUT ==> pos == old(pos) && timeouts < old(timeouts)
      ensures rc == KV_NETWORK_CLOSE ==> old(pos) + len > |data| && pos == |data|
    {
      if len == 0 { return KV_OK, ""; }
      var late := *;
      if late && timeouts > 0 {
        timeouts := timeouts - 1;
        return KV_TIMEOUT, "";
      }
      if pos + len > |data| {
        pos := |data|;
        return KV_NETWORK_CLOSE, "";
      }
      chunk := data[pos..pos + len];
      pos := pos + len;
      return KV_OK, chunk;
    }
  }
}
