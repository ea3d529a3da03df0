/** Circular doubly linked lists held in two index arrays: `nxt` and `prv`.
    A ring has a head `h` and a body `s`; following `nxt` from `h` visits `s` in order and
    comes back to `h`, and `prv` is the mirror image.  The header list, the vertical rings and
    the row rings of the dancing-links matrix are all of this shape. */
module Rings {

  ghost predicate Distinct(s: seq<nat>) {
    forall i, j :: 0 <= i < j < |s| ==> s[i] != s[j]
  }

  /** The node that follows body position `i`, and the one that comes before it. */
  function After(h: nat, s: seq<nat>, i: nat): nat
    requires i < |s|
  {
    if i + 1 < |s| then s[i + 1] else h
  }

  function Before(h: nat, s: seq<nat>, i: nat): nat
    requires i < |s|
  {
    if i > 0 then s[i - 1] else h
  }

  function First(h: nat, s: seq<nat>): nat {
    if s == [] then h else s[0]
  }

  function Last(h: nat, s: seq<nat>): nat {
    if s == [] then h else s[|s| - 1]
  }

  ghost predicate LinkAt(nxt: seq<nat>, prv: seq<nat>, h: nat, s: seq<nat>, i: nat)
    requires i < |s| && |nxt| == |prv| && s[i] < |nxt|
  {
    nxt[s[i]] == After(h, s, i) && prv[s[i]] == Before(h, s, i)
  }

  ghost predicate IsRing(nxt: seq<nat>, prv: seq<nat>, h: nat, s: seq<nat>) {
    && |nxt| == |prv| && h < |nxt|
    && (forall i :: 0 <= i < |s| ==> s[i] < |nxt|)
    && h !in s && Distinct(s)
    && nxt[h] == First(h, s) && prv[h] == Last(h, s)
    && (forall i {:trigger LinkAt(nxt, prv, h, s, i)} :: 0 <= i < |s| ==> LinkAt(nxt, prv, h, s, i))
  }

  // ---- removing a body node ----

  function WithoutAt(s: seq<nat>, k: nat): seq<nat>
    requires k < |s|
  {
    s[..k] + s[k + 1..]
  }

  /** The first position of `x` in `s`. */
  function IndexOf(s: seq<nat>, x: nat): (k: nat)
    requires x in s
    ensures k < |s| && s[k] == x && x !in s[..k]
  {
    if s[0] == x then 0 else 1 + IndexOf(s[1..], x)
  }

  /** `s` with the first `x` taken out (all of `s` when `x` is not there). */
  function Drop(s: seq<nat>, x: nat): seq<nat> {
    if x in s then WithoutAt(s, IndexOf(s, x)) else s
  }

  lemma DropElements(s: seq<nat>, x: nat)
    requires Distinct(s)
    ensures Distinct(Drop(s, x))
    ensures forall y :: y in Drop(s, x) <==> y in s && y != x
    ensures |Drop(s, x)| == if x in s then |s| - 1 else |s|
  {
    if x in s {
      var k := IndexOf(s, x);
      var t := WithoutAt(s, k);
      forall y | y in s && y != x ensures y in t {
        var i :| 0 <= i < |s| && s[i] == y;
        assert t[if i < k then i else i - 1] == y;
      }
    }
  }

  /** Taking a body node out with the two link writes of `cover` leaves the ring without it. */
  lemma RingRemove(nxt: seq<nat>, prv: seq<nat>, h: nat, s: seq<nat>, j: nat)
    requires IsRing(nxt, prv, h, s) && j in s
    ensures j < |nxt| && prv[j] < |nxt| && nxt[j] < |prv|
    ensures IsRing(nxt[prv[j] := nxt[j]], prv[nxt[j] := prv[j]], h, Drop(s, j))
  {
    var k := IndexOf(s, j);
    assert LinkAt(nxt, prv, h, s, k);
    RingRemoveAt(nxt, prv, h, s, k);
  }

  lemma RingRemoveAt(nxt: seq<nat>, prv: seq<nat>, h: nat, s: seq<nat>, k: nat)
    requires IsRing(nxt, prv, h, s) && k < |s|
    ensures Before(h, s, k) < |nxt| && After(h, s, k) < |nxt|
    ensures IsRing(nxt[Before(h, s, k) := After(h, s, k)], prv[After(h, s, k) := Before(h, s, k)],
                   h, WithoutAt(s, k))
  {
    var t := WithoutAt(s, k);
    var n2, p2 := nxt[Before(h, s, k) := After(h, s, k)], prv[After(h, s, k) := Before(h, s, k)];
    WithoutAtDistinct(h, s, k);
    forall i | 0 <= i < |t| ensures t[i] < |n2| && LinkAt(n2, p2, h, t, i) {
      RemoveAt(nxt, prv, h, s, k, i);
    }
    RemoveHead(nxt, prv, h, s, k);
  }

  lemma WithoutAtDistinct(h: nat, s: seq<nat>, k: nat)
    requires k < |s| && Distinct(s) && h !in s
    ensures Distinct(WithoutAt(s, k)) && h !in WithoutAt(s, k)
    ensures forall i :: 0 <= i < |s| - 1 ==> WithoutAt(s, k)[i] in s
  {
    var t := WithoutAt(s, k);
    assert forall i :: 0 <= i < |t| ==> t[i] == s[if i < k then i else i + 1];
  }

  lemma RemoveHead(nxt: seq<nat>, prv: seq<nat>, h: nat, s: seq<nat>, k: nat)
    requires IsRing(nxt, prv, h, s) && k < |s|
    ensures Before(h, s, k) < |nxt| && After(h, s, k) < |nxt|
    ensures nxt[Before(h, s, k) := After(h, s, k)][h] == First(h, WithoutAt(s, k))
    ensures prv[After(h, s, k) := Before(h, s, k)][h] == Last(h, WithoutAt(s, k))
  {
    var t := WithoutAt(s, k);
    if t != [] {
      assert t[0] == s[if k == 0 then 1 else 0];
      assert t[|t| - 1] == s[if k == |s| - 1 then |s| - 2 else |s| - 1];
    }
  }

  lemma RemoveAt(nxt: seq<nat>, prv: seq<nat>, h: nat, s: seq<nat>, k: nat, i: nat)
    requires IsRing(nxt, prv, h, s) && k < |s| && i < |s| - 1
    ensures Before(h, s, k) < |nxt| && After(h, s, k) < |nxt| && WithoutAt(s, k)[i] < |nxt|
    ensures LinkAt(nxt[Before(h, s, k) := After(h, s, k)], prv[After(h, s, k) := Before(h, s, k)],
                   h, WithoutAt(s, k), i)
  {
    var q := if i < k then i else i + 1;
    assert s[q] in s;
    assert LinkAt(nxt, prv, h, s, q);
  }

  // ---- facts about one ring ----

  /** Every node of a ring is mirrored by both of its neighbours. */
  lemma RingMirror(nxt: seq<nat>, prv: seq<nat>, h: nat, s: seq<nat>, j: nat)
    requires IsRing(nxt, prv, h, s) && (j == h || j in s)
    ensures j < |nxt| && nxt[j] < |nxt| && prv[j] < |nxt|
    ensures prv[nxt[j]] == j && nxt[prv[j]] == j
    ensures nxt[j] == h || nxt[j] in s
    ensures prv[j] == h || prv[j] in s
    ensures j in s ==> nxt[j] != j && prv[j] != j
  {
    if j in s {
      var k := IndexOf(s, j);
      assert LinkAt(nxt, prv, h, s, k);
      if k + 1 < |s| { assert LinkAt(nxt, prv, h, s, k + 1); }
      if k > 0 { assert LinkAt(nxt, prv, h, s, k - 1); }
    } else if s != [] {
      assert LinkAt(nxt, prv, h, s, 0);
      assert LinkAt(nxt, prv, h, s, |s| - 1);
    }
  }

  /** Writes that miss every node of a ring leave it alone. */
  lemma RingFrame(nxt: seq<nat>, prv: seq<nat>, nxt2: seq<nat>, prv2: seq<nat>, h: nat, s: seq<nat>)
    requires IsRing(nxt, prv, h, s)
    requires |nxt| == |nxt2| == |prv2|
    requires nxt2[h] == nxt[h] && prv2[h] == prv[h]
    requires forall x {:trigger x in s} :: x in s ==> x < |nxt| && nxt2[x] == nxt[x] && prv2[x] == prv[x]
    ensures IsRing(nxt2, prv2, h, s)
  {
    forall i | 0 <= i < |s| ensures LinkAt(nxt2, prv2, h, s, i) {
      assert s[i] in s;
      assert LinkAt(nxt, prv, h, s, i);
    }
  }

  /** The four writes of `put_left` and `put_up`: a fresh node enters just before the head, that is,
      at the end of the body. */
  lemma RingAppend(nxt: seq<nat>, prv: seq<nat>, h: nat, s: seq<nat>, x: nat)
    requires IsRing(nxt, prv, h, s) && x < |nxt| && x != h && x !in s
    ensures prv[h] < |nxt|
    ensures IsRing(nxt[x := h][prv[h] := x], prv[x := prv[h]][h := x], h, s + [x])
  {
    RingMirror(nxt, prv, h, s, h);
    var last := prv[h];
    var n2, p2 := nxt[x := h][last := x], prv[x := last][h := x];
    var t := s + [x];
    forall i | 0 <= i < |t| ensures t[i] < |n2| && LinkAt(n2, p2, h, t, i) {
      AppendAt(nxt, prv, h, s, x, i);
    }
  }

  lemma AppendAt(nxt: seq<nat>, prv: seq<nat>, h: nat, s: seq<nat>, x: nat, i: nat)
    requires IsRing(nxt, prv, h, s) && x < |nxt| && x != h && x !in s && i <= |s| && prv[h] < |nxt|
    ensures (s + [x])[i] < |nxt|
    ensures LinkAt(nxt[x := h][prv[h] := x], prv[x := prv[h]][h := x], h, s + [x], i)
  {
    if i < |s| {
      assert s[i] in s;
      assert LinkAt(nxt, prv, h, s, i);
    }
  }
}
