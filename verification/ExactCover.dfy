/** Exact covers of the matrix a grid holds, runs of covers and uncovers, and the two facts the search
    rests on: a chosen row extends covers of what is left, and every cover uses a row of each column. */
module ExactCover {
  import opened Rings
  import opened Torus
  import opened Matrix
  import opened Cover

  // ---- runs of covers ----

  ghost predicate Coverable(G: Grid, cs: seq<nat>) {
    Distinct(cs) && forall i :: 0 <= i < |cs| ==> cs[i] in G.heads
  }

  ghost predicate TouchesSome(S: Shape, x: nat, cs: seq<nat>)
    requires x < |S.colOf| == |S.others|
  {
    exists c :: c in cs && Touches(S, x, c)
  }

  ghost predicate CoverAllEffect(S: Shape, G: Grid, G2: Grid, cs: seq<nat>) {
    && |S.colOf| == |S.others| == |G.lists| == |G2.lists|
    && |G2.heads| == |G.heads| - |cs|
    && (forall d :: d in G2.heads <==> d in G.heads && d !in cs)
    && (forall d, x {:trigger x in G2.lists[d]} {:trigger x in G.lists[d]} ::
          d in G2.heads && d < |G.lists| ==>
          (x in G2.lists[d] <==> x in G.lists[d] && x < |S.colOf| && !TouchesSome(S, x, cs)))
  }

  /** Pool and grid after covering the columns `cs` in order. */
  ghost function CoverAll(S: Shape, m: Pool, G: Grid, cs: seq<nat>): (r: (Pool, Grid))
    requires Good(S, m, G) && Coverable(G, cs)
    ensures Good(S, r.0, r.1) && SameLabels(m, r.0) && CoverAllEffect(S, G, r.1, cs)
  {
    if cs == [] then NothingTouched(S, G); (m, G)
    else
      var k := |cs| - 1;
      var p := CoverAll(S, m, G, cs[..k]);
      CoverStep(S, p.0, G, p.1, cs);
      (Covered(S, p.0, p.1, cs[k]), CoverGrid(S, p.0, p.1, cs[k]))
  }

  lemma CoverStep(S: Shape, m1: Pool, G: Grid, G1: Grid, cs: seq<nat>)
    requires cs != [] && Coverable(G, cs) && CoverAllEffect(S, G, G1, cs[..|cs| - 1]) && Good(S, m1, G1)
    ensures var c := cs[|cs| - 1];
      && c in G1.heads && SameLabels(m1, Covered(S, m1, G1, c))
      && Good(S, Covered(S, m1, G1, c), CoverGrid(S, m1, G1, c))
      && CoverAllEffect(S, G, CoverGrid(S, m1, G1, c), cs)
  {
    var k := |cs| - 1;
    assert cs == cs[..k] + [cs[k]];
    assert cs[k] in G1.heads;
    EffectStep(S, G, G1, CoverGrid(S, m1, G1, cs[k]), cs);
  }

  lemma NothingTouched(S: Shape, G: Grid)
    requires Closed(S, G)
    ensures CoverAllEffect(S, G, G, [])
  {
  }

  lemma EffectStep(S: Shape, G: Grid, G1: Grid, G2: Grid, cs: seq<nat>)
    requires cs != [] && CoverAllEffect(S, G, G1, cs[..|cs| - 1]) && CoverEffect(S, G1, G2, cs[|cs| - 1])
    ensures CoverAllEffect(S, G, G2, cs)
  {
    var k := |cs| - 1;
    assert cs == cs[..k] + [cs[k]];
    forall d, x | d in G2.heads && d < |G.lists|
      ensures x in G2.lists[d] <==> x in G.lists[d] && x < |S.colOf| && !TouchesSome(S, x, cs)
    {
      assert d in G1.heads;
      assert x in G2.lists[d] <==> x in G1.lists[d] && x < |S.colOf| && !Touches(S, x, cs[k]);
      if x in G.lists[d] && x < |S.colOf| {
        assert TouchesSome(S, x, cs) <==> TouchesSome(S, x, cs[..k]) || Touches(S, x, cs[k]);
      }
    }
  }

  // ---- any properly nested sequence of covers and uncovers ----

  datatype Op = CoverOp(c: nat) | UncoverOp

  /** The columns still covered after `ops`, starting with `cs` covered; uncovering is always of the
      column covered last. */
  function OpenAfter(cs: seq<nat>, ops: seq<Op>): seq<nat>
    decreases |ops|
  {
    if ops == [] then cs
    else match ops[0]
      case CoverOp(c) => OpenAfter(cs + [c], ops[1..])
      case UncoverOp => OpenAfter(if cs == [] then [] else cs[..|cs| - 1], ops[1..])
  }

  /** Only listed columns are covered, and only a covered column is uncovered. */
  ghost predicate Nested(G: Grid, cs: seq<nat>, ops: seq<Op>)
    decreases |ops|
  {
    ops == [] || match ops[0]
      case CoverOp(c) => c in G.heads && c !in cs && Nested(G, cs + [c], ops[1..])
      case UncoverOp => cs != [] && Nested(G, cs[..|cs| - 1], ops[1..])
  }

  /** Runs `ops` on the pool `p`, in which the columns `cs` of the grid that `m` holds are covered. */
  ghost function RunOps(S: Shape, m: Pool, G: Grid, cs: seq<nat>, p: Pool, ops: seq<Op>): Pool
    requires Good(S, m, G) && Coverable(G, cs) && Nested(G, cs, ops) && p == CoverAll(S, m, G, cs).0
    decreases |ops|
  {
    if ops == [] then p
    else match ops[0]
      case CoverOp(c) =>
        CoverOneMore(S, m, G, cs, c);
        RunOps(S, m, G, cs + [c], Covered(S, p, CoverAll(S, m, G, cs).1, c), ops[1..])
      case UncoverOp =>
        var k := |cs| - 1;
        UncoverLast(S, m, G, cs);
        RunOps(S, m, G, cs[..k], Uncovered(S, p, CoverAll(S, m, G, cs[..k]).1, cs[k]), ops[1..])
  }

  lemma CoverOneMore(S: Shape, m: Pool, G: Grid, cs: seq<nat>, c: nat)
    requires Good(S, m, G) && Coverable(G, cs) && c in G.heads && c !in cs
    ensures Coverable(G, cs + [c]) && c in CoverAll(S, m, G, cs).1.heads
    ensures CoverAll(S, m, G, cs + [c]).0 == Covered(S, CoverAll(S, m, G, cs).0, CoverAll(S, m, G, cs).1, c)
    ensures CoverAll(S, m, G, cs + [c]).1 == CoverGrid(S, CoverAll(S, m, G, cs).0, CoverAll(S, m, G, cs).1, c)
  {
    assert (cs + [c])[..|cs|] == cs;
  }

  lemma UncoverLast(S: Shape, m: Pool, G: Grid, cs: seq<nat>)
    requires Good(S, m, G) && Coverable(G, cs) && cs != []
    ensures var k := |cs| - 1;
      && Coverable(G, cs[..k]) && cs[k] in CoverAll(S, m, G, cs[..k]).1.heads
      && var p, G1 := CoverAll(S, m, G, cs).0, CoverAll(S, m, G, cs[..k]).1;
         && cs[k] < |p| == |S.colOf| && cs[k] < |G1.lists| && InRange(p) && RowNodes(S, G1.lists[cs[k]])
         && Uncovered(S, p, G1, cs[k]) == CoverAll(S, m, G, cs[..k]).0
  {
    var k := |cs| - 1;
    assert cs == cs[..k] + [cs[k]];
    assert Coverable(G, cs[..k]);
    var p := CoverAll(S, m, G, cs[..k]);
    assert cs[k] in p.1.heads;
    UncoverUndoesCover(S, p.0, p.1, cs[k]);
  }

  /** However covers and uncovers are nested, the pool is determined by the columns left open: closing
      all of them restores it exactly. */
  lemma {:induction false} NestedRun(S: Shape, m: Pool, G: Grid, cs: seq<nat>, p: Pool, ops: seq<Op>)
    requires Good(S, m, G) && Coverable(G, cs) && Nested(G, cs, ops) && p == CoverAll(S, m, G, cs).0
    ensures Coverable(G, OpenAfter(cs, ops))
    ensures RunOps(S, m, G, cs, p, ops) == CoverAll(S, m, G, OpenAfter(cs, ops)).0
    decreases |ops|
  {
    if ops != [] {
      match ops[0]
      case CoverOp(c) =>
        CoverOneMore(S, m, G, cs, c);
        NestedRun(S, m, G, cs + [c], Covered(S, p, CoverAll(S, m, G, cs).1, c), ops[1..]);
      case UncoverOp =>
        var k := |cs| - 1;
        UncoverLast(S, m, G, cs);
        NestedRun(S, m, G, cs[..k], Uncovered(S, p, CoverAll(S, m, G, cs[..k]).1, cs[k]), ops[1..]);
    }
  }

  lemma BalancedRunIsIdentity(S: Shape, m: Pool, G: Grid, ops: seq<Op>)
    requires Good(S, m, G) && Nested(G, [], ops) && OpenAfter([], ops) == []
    ensures RunOps(S, m, G, [], m, ops) == m
  {
    NestedRun(S, m, G, [], m, ops);
  }

  // ---- exact covers ----

  ghost predicate InGridRow(S: Shape, G: Grid, x: nat) {
    InGrid(S, G.lists, x) && S.colOf[x] in G.heads
  }

  ghost predicate AllRows(S: Shape, G: Grid, X: seq<nat>) {
    forall i :: 0 <= i < |X| ==> InGridRow(S, G, X[i])
  }

  /** Some row of `X` has a node in column `c`. */
  ghost predicate Hit(S: Shape, X: seq<nat>, c: nat)
    requires |S.colOf| == |S.others|
  {
    exists i :: 0 <= i < |X| && X[i] < |S.colOf| && Touches(S, X[i], c)
  }

  /** No two rows of `X` have a node in column `c`. */
  ghost predicate HitOnce(S: Shape, X: seq<nat>, c: nat)
    requires |S.colOf| == |S.others|
  {
    forall i, j {:trigger X[i], X[j]} :: 0 <= i < j < |X| && X[i] < |S.colOf| && X[j] < |S.colOf| ==>
      !(Touches(S, X[i], c) && Touches(S, X[j], c))
  }

  /** `X` names rows, one node each, that together have exactly one node in every listed column. */
  ghost predicate IsExactCover(S: Shape, G: Grid, X: seq<nat>)
    requires |S.colOf| == |S.others|
  {
    && AllRows(S, G, X)
    && (forall c {:trigger Hit(S, X, c)} :: c in G.heads ==> Hit(S, X, c))
    && (forall c {:trigger HitOnce(S, X, c)} :: c in G.heads ==> HitOnce(S, X, c))
  }

  /** The columns of the row of `n`, starting with its own. */
  function RowColumns(S: Shape, n: nat): (cs: seq<nat>)
    requires n < |S.colOf| == |S.others|
    requires forall k :: k in S.others[n] ==> k < |S.colOf|
  {
    [S.colOf[n]] + seq(|S.others[n]|, i requires 0 <= i < |S.others[n]| =>
      assert S.others[n][i] in S.others[n]; S.colOf[S.others[n][i]])
  }

  lemma RowColumnsFacts(S: Shape, n: nat)
    requires ValidShape(S) && n in S.nodes
    ensures n < |S.colOf| && NodeOk(S, n)
    ensures forall k :: k in S.others[n] ==> k < |S.colOf|
    ensures Distinct(RowColumns(S, n))
    ensures forall c {:trigger c in RowColumns(S, n)} {:trigger Touches(S, n, c)} ::
              c in RowColumns(S, n) <==> Touches(S, n, c)
  {
    assert NodeOk(S, n);
    var cs, os := RowColumns(S, n), S.others[n];
    forall i, j | 0 <= i < j < |cs| ensures cs[i] != cs[j] {
      var b := os[j - 1];
      assert b in os && Mates(S, n, b);
      if i > 0 {
        var a := os[i - 1];
        assert a in os && a != b && Mates(S, n, a) && NodeOk(S, a) && Mates(S, a, b);
      }
    }
    forall c ensures c in cs <==> Touches(S, n, c) {
      if c in cs && c != S.colOf[n] {
        var i :| 0 < i < |cs| && cs[i] == c;
        assert os[i - 1] in os;
      }
      if Touches(S, n, c) && c != S.colOf[n] {
        var k :| k in os && S.colOf[k] == c;
        var i :| 0 <= i < |os| && os[i] == k;
        assert cs[i + 1] == c;
      }
    }
  }

  /** The columns of a row in the grid can all be covered. */
  lemma RowCoverable(S: Shape, m: Pool, G: Grid, n: nat)
    requires Good(S, m, G) && InGridRow(S, G, n)
    ensures n < |S.colOf| && (forall k :: k in S.others[n] ==> k < |S.colOf|)
    ensures Coverable(G, RowColumns(S, n))
    ensures forall c :: Touches(S, n, c) ==> c in G.heads
  {
    RowColumnsFacts(S, n);
    assert n in G.lists[S.colOf[n]] && RowClosed(S, G, n);
    forall c | Touches(S, n, c) ensures c in G.heads {
    }
  }

  /** The grid left when the row of `n` is chosen. */
  ghost function RowCovered(S: Shape, m: Pool, G: Grid, n: nat): (r: (Pool, Grid))
    requires Good(S, m, G) && InGridRow(S, G, n)
  {
    RowCoverable(S, m, G, n);
    CoverAll(S, m, G, RowColumns(S, n))
  }

  /** The rows of `n` and `x` have a column in common. */
  ghost predicate Meet(S: Shape, n: nat, x: nat)
    requires n < |S.colOf| == |S.others| && x < |S.colOf|
  {
    exists c :: Touches(S, n, c) && Touches(S, x, c)
  }

  /** `G2` is what choosing the row of `n` leaves of `G`. */
  ghost predicate Leaves(S: Shape, G: Grid, G2: Grid, n: nat) {
    && |S.colOf| == |S.others| && n < |S.colOf| && InGridRow(S, G, n)
    && (forall c {:trigger Touches(S, n, c)} :: Touches(S, n, c) ==> c in G.heads)
    && (forall c {:trigger c in G2.heads} {:trigger c in G.heads} ::
          c in G2.heads <==> c in G.heads && !Touches(S, n, c))
    && (forall x {:trigger InGridRow(S, G2, x)} {:trigger InGridRow(S, G, x)} ::
          InGridRow(S, G2, x) <==> InGridRow(S, G, x) && !Meet(S, n, x))
  }

  lemma RowCoveredLeaves(S: Shape, m: Pool, G: Grid, n: nat)
    requires Good(S, m, G) && InGridRow(S, G, n)
    ensures Leaves(S, G, RowCovered(S, m, G, n).1, n)
  {
    RowCoverable(S, m, G, n);
    RowColumnsFacts(S, n);
    var cs, G2 := RowColumns(S, n), RowCovered(S, m, G, n).1;
    forall x ensures InGridRow(S, G2, x) <==> InGridRow(S, G, x) && !Meet(S, n, x) {
      LeftIsDisjoint(S, G, G2, n, cs, x);
    }
  }

  lemma LeftIsDisjoint(S: Shape, G: Grid, G2: Grid, n: nat, cs: seq<nat>, x: nat)
    requires CoverAllEffect(S, G, G2, cs) && n < |S.colOf|
    requires forall c {:trigger c in cs} {:trigger Touches(S, n, c)} :: c in cs <==> Touches(S, n, c)
    ensures InGridRow(S, G2, x) <==> InGridRow(S, G, x) && !Meet(S, n, x)
  {
    if InGridRow(S, G2, x) {
      assert x in G2.lists[S.colOf[x]] && !TouchesSome(S, x, cs);
    }
    if InGridRow(S, G, x) && !Meet(S, n, x) {
      assert x in G.lists[S.colOf[x]] && Touches(S, x, S.colOf[x]);
      assert !TouchesSome(S, x, cs);
    }
  }

  /** Soundness of one choice: a cover of what is left, with the chosen row in front, covers all. */
  lemma ChosenRowExtends(S: Shape, G: Grid, G2: Grid, n: nat, X: seq<nat>)
    requires Leaves(S, G, G2, n) && IsExactCover(S, G2, X)
    ensures IsExactCover(S, G, [n] + X)
  {
    var Y := [n] + X;
    forall i | 0 <= i < |Y| ensures InGridRow(S, G, Y[i]) {
      if i > 0 { assert InGridRow(S, G2, X[i - 1]); }
    }
    forall c | c in G.heads ensures Hit(S, Y, c) && HitOnce(S, Y, c) {
      ChosenRowHits(S, G, G2, n, X, c);
    }
  }

  lemma ChosenRowHits(S: Shape, G: Grid, G2: Grid, n: nat, X: seq<nat>, c: nat)
    requires Leaves(S, G, G2, n) && IsExactCover(S, G2, X) && c in G.heads
    ensures Hit(S, [n] + X, c) && HitOnce(S, [n] + X, c)
  {
    var Y := [n] + X;
    forall i | 0 < i < |Y| ensures Y[i] == X[i - 1] && InGridRow(S, G2, X[i - 1]) {
    }
    if Touches(S, n, c) {
      assert Y[0] == n;
    } else {
      assert c in G2.heads && Hit(S, X, c) && HitOnce(S, X, c);
      var i :| 0 <= i < |X| && X[i] < |S.colOf| && Touches(S, X[i], c);
      assert Y[i + 1] == X[i];
    }
  }

  /** Completeness of one choice: every exact cover uses some row listed in column `c`, and its other
      rows are an exact cover of what that choice leaves. */
  lemma CoverUsesColumn(S: Shape, m: Pool, G: Grid, c: nat, X: seq<nat>) returns (n: nat, Y: seq<nat>)
    requires Good(S, m, G) && c in G.heads && IsExactCover(S, G, X)
    ensures c < |G.lists| && n in G.lists[c] && InGridRow(S, G, n)
    ensures IsExactCover(S, RowCovered(S, m, G, n).1, Y)
  {
    assert Hit(S, X, c);
    var i :| 0 <= i < |X| && X[i] < |S.colOf| && Touches(S, X[i], c);
    n := NodeInColumn(S, m, G, X[i], c);
    Y := Except(X, i);
    RowCoveredLeaves(S, m, G, n);
    OthersCover(S, G, RowCovered(S, m, G, n).1, n, X, i);
  }

  lemma NodeInColumn(S: Shape, m: Pool, G: Grid, x: nat, c: nat) returns (n: nat)
    requires Good(S, m, G) && InGridRow(S, G, x) && Touches(S, x, c)
    ensures c < |G.lists| && n in G.lists[c] && InGridRow(S, G, n)
    ensures x < |S.colOf| && forall d :: Touches(S, x, d) <==> Touches(S, n, d)
  {
    RowCoverable(S, m, G, x);
    assert NodeOk(S, x) && x in G.lists[S.colOf[x]] && RowClosed(S, G, x);
    if S.colOf[x] == c {
      n := x;
    } else {
      n :| n in S.others[x] && S.colOf[n] == c;
      assert Mates(S, x, n) && InGrid(S, G.lists, n);
      forall d ensures Touches(S, x, d) <==> Touches(S, n, d) {
        SameTouches(S, x, n, d);
      }
    }
  }

  function Except(X: seq<nat>, i: nat): seq<nat>
    requires i < |X|
  {
    X[..i] + X[i + 1..]
  }

  lemma OthersCover(S: Shape, G: Grid, G2: Grid, n: nat, X: seq<nat>, i: nat)
    requires Leaves(S, G, G2, n) && IsExactCover(S, G, X) && i < |X|
    requires X[i] < |S.colOf| && forall d :: Touches(S, X[i], d) <==> Touches(S, n, d)
    ensures IsExactCover(S, G2, Except(X, i))
  {
    var Y := Except(X, i);
    forall j | 0 <= j < |Y| ensures InGridRow(S, G2, Y[j]) {
      OtherRowLeft(S, G, G2, n, X, i, if j < i then j else j + 1);
    }
    forall c | c in G2.heads ensures Hit(S, Y, c) && HitOnce(S, Y, c) {
      assert c in G.heads && Hit(S, X, c) && HitOnce(S, X, c);
      OtherHits(S, X, i, c);
    }
  }

  lemma OtherHits(S: Shape, X: seq<nat>, i: nat, c: nat)
    requires |S.colOf| == |S.others| && i < |X| && X[i] < |S.colOf| && !Touches(S, X[i], c)
    requires Hit(S, X, c) && HitOnce(S, X, c)
    ensures Hit(S, Except(X, i), c) && HitOnce(S, Except(X, i), c)
  {
    var Y := Except(X, i);
    var q :| 0 <= q < |X| && X[q] < |S.colOf| && Touches(S, X[q], c);
    assert Y[if q < i then q else q - 1] == X[q];
    assert forall j :: 0 <= j < |Y| ==> Y[j] == X[if j < i then j else j + 1];
  }

  lemma OtherRowLeft(S: Shape, G: Grid, G2: Grid, n: nat, X: seq<nat>, i: nat, q: nat)
    requires Leaves(S, G, G2, n) && IsExactCover(S, G, X) && i < |X| && q < |X| && q != i
    requires X[i] < |S.colOf| && forall d :: Touches(S, X[i], d) <==> Touches(S, n, d)
    ensures InGridRow(S, G2, X[q])
  {
    assert InGridRow(S, G, X[q]);
    forall c | Touches(S, n, c) ensures !Touches(S, X[q], c) {
      assert HitOnce(S, X, c) && Touches(S, X[i], c);
    }
  }
}
