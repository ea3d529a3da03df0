/** `cover` and `uncover` as functions on the pool, and what they do to the matrix. */
module Cover {
  import opened Rings
  import opened Torus
  import opened Matrix

  /** The row of `n` has a node in column `c`. */
  ghost predicate Touches(S: Shape, n: nat, c: nat)
    requires n < |S.colOf| == |S.others|
  {
    S.colOf[n] == c || exists k :: k in S.others[n] && k < |S.colOf| && S.colOf[k] == c
  }

  /** All nodes of the row of `n` are in their columns, and those columns are listed. */
  ghost predicate RowClosed(S: Shape, G: Grid, n: nat)
    requires n < |S.colOf| == |S.others|
  {
    forall k {:trigger k in S.others[n]} :: k in S.others[n] ==> InGrid(S, G.lists, k) && S.colOf[k] in G.heads
  }

  /** A row that shows in one listed column shows in all of its columns, and they are all listed. */
  ghost predicate Closed(S: Shape, G: Grid) {
    && |S.colOf| == |S.others| == |G.lists|
    && forall c, n {:trigger n in G.lists[c]} ::
         c in G.heads && c < |G.lists| && n in G.lists[c] ==> n < |S.colOf| && RowClosed(S, G, n)
  }

  /** The pool holds grid `G`, whose listed part is a matrix of whole rows. */
  ghost predicate Good(S: Shape, m: Pool, G: Grid) {
    Linked(S, m, G) && Closed(S, G)
  }

  // ---- the header ----

  lemma HeadUnlinked(S: Shape, m: Pool, G: Grid, c: nat)
    requires Linked(S, m, G) && c in G.heads
    ensures c < |m| && Linked(S, UnlinkHead(m, c), G.(heads := Drop(G.heads, c)))
  {
    assert c in S.cols;
    RingMirror(Rights(m), Lefts(m), ROOT, G.heads, c);
    RingRemove(Rights(m), Lefts(m), ROOT, G.heads, c);
    DropElements(G.heads, c);
    UnlinkHeadIs(m, c);
    var m2, G2 := UnlinkHead(m, c), G.(heads := Drop(G.heads, c));
    forall n | n in S.nodes ensures RowOk(S, m2, n) {
      assert RowOk(S, m, n) && NodeOk(S, n);
      HeadUnlinkedRow(S, m, G, c, n);
    }
    forall d | d in S.cols ensures d < |m| && ColumnOk(S, m2, G2, d) {
      assert ColumnOk(S, m, G, d);
      assert Sizes(m2)[d] == m2[d].size && Sizes(m)[d] == m[d].size;
    }
  }

  lemma HeadUnlinkedRow(S: Shape, m: Pool, G: Grid, c: nat, n: nat)
    requires ValidShape(S) && InRange(m) && |m| == |S.colOf| && HeadsOk(S, m, G)
    requires c in G.heads && c < |m| && n in S.nodes && RowOk(S, m, n) && NodeOk(S, n)
    requires m[c].left == ROOT || m[c].left in G.heads
    requires m[c].right == ROOT || m[c].right in G.heads
    ensures RowOk(S, UnlinkHead(m, c), n)
  {
    UnlinkHeadIs(m, c);
    var m2 := UnlinkHead(m, c);
    forall x | x in S.others[n] ensures x < |m| && x != m[c].left && x != m[c].right {
      assert Mates(S, n, x);
    }
    RingFrame(Rights(m), Lefts(m), Rights(m2), Lefts(m2), n, S.others[n]);
  }

  // ---- the rows of a covered column ----

  ghost predicate RowNodes(S: Shape, rows: seq<nat>) {
    forall i {:trigger rows[i]} :: 0 <= i < |rows| ==>
      rows[i] in S.nodes && rows[i] < |S.others| && forall q :: 0 <= q < |S.others[rows[i]]| ==>
          S.others[rows[i]][q] < |S.colOf|
  }

  /** The pool after unlinking, row by row, the mates of the first `i` nodes of `rows`. */
  ghost function RowsOut(S: Shape, m: Pool, rows: seq<nat>, i: nat): (m2: Pool)
    requires InRange(m) && |m| == |S.colOf| && RowNodes(S, rows) && i <= |rows|
    ensures InRange(m2) && SameLabels(m, m2) && Lefts(m2) == Lefts(m) && Rights(m2) == Rights(m)
  {
    if i == 0 then m
    else
      var os := S.others[rows[i - 1]];
      UnlinkRun(RowsOut(S, m, rows, i - 1), os, |os|)
  }

  /** Puts them back, last row first. */
  ghost function RowsIn(S: Shape, m: Pool, rows: seq<nat>, i: nat): (m2: Pool)
    requires InRange(m) && |m| == |S.colOf| && RowNodes(S, rows) && i <= |rows|
    ensures InRange(m2) && |m2| == |m|
    decreases i
  {
    if i == 0 then m
    else
      var os := S.others[rows[i - 1]];
      RowsIn(S, RelinkRun(m, os, |os|), rows, i - 1)
  }

  /** `x` shares its row with another node, one of the first `i` of `rows`. */
  ghost predicate MateOfSome(S: Shape, rows: seq<nat>, i: nat, x: nat)
    requires RowNodes(S, rows) && i <= |rows|
  {
    exists q :: 0 <= q < i && x in S.others[rows[q]]
  }

  /** Column by column, `l2` holds what `l1` holds except the mates of the first `i` rows. */
  ghost predicate RowsRemoved(S: Shape, l1: seq<seq<nat>>, l2: seq<seq<nat>>, rows: seq<nat>, i: nat)
    requires RowNodes(S, rows) && i <= |rows|
  {
    && |l2| == |l1|
    && forall c, x {:trigger x in l1[c]} {:trigger x in l2[c]} ::
         c in S.cols && c < |l1| ==> (x in l2[c] <==> x in l1[c] && !MateOfSome(S, rows, i, x))
  }

  lemma RowNodesOk(S: Shape, m: Pool, G: Grid, c: nat)
    requires Good(S, m, G) && c in G.heads
    ensures c in S.cols && c < |G.lists| && RowNodes(S, G.lists[c]) && Distinct(G.lists[c])
    ensures forall i {:trigger G.lists[c][i]} :: 0 <= i < |G.lists[c]| ==>
              NodeOk(S, G.lists[c][i]) && S.colOf[G.lists[c][i]] == c && RowClosed(S, G, G.lists[c][i])
  {
    assert c in S.cols;
    assert ColumnOk(S, m, G, c);
    var rows := G.lists[c];
    forall i | 0 <= i < |rows|
      ensures rows[i] in S.nodes && NodeOk(S, rows[i]) && S.colOf[rows[i]] == c && RowClosed(S, G, rows[i])
      ensures forall q :: 0 <= q < |S.others[rows[i]]| ==> S.others[rows[i]][q] < |S.colOf|
    {
      assert rows[i] in rows;
      assert NodeOk(S, rows[i]);
      forall q | 0 <= q < |S.others[rows[i]]| ensures S.others[rows[i]][q] < |S.colOf| {
        assert S.others[rows[i]][q] in S.others[rows[i]];
      }
    }
  }

  /** When the first `i` rows of `c` are out, the next row is still whole. */
  lemma NextRowWhole(S: Shape, m: Pool, G: Grid, c: nat, lists: seq<seq<nat>>, i: nat)
    requires Good(S, m, G) && c in G.heads && c < |G.lists| && RowNodes(S, G.lists[c]) && i < |G.lists[c]|
    requires RowsRemoved(S, G.lists, lists, G.lists[c], i)
    ensures var os := S.others[G.lists[c][i]];
      AllInGrid(S, lists, os) && Distinct(os) && forall q :: 0 <= q < |os| ==> S.colOf[os[q]] != c
  {
    RowNodesOk(S, m, G, c);
    var rows := G.lists[c];
    var r := rows[i];
    var os := S.others[r];
    assert NodeOk(S, r) && RowClosed(S, G, r);
    forall q | 0 <= q < |os| ensures InGrid(S, lists, os[q]) && S.colOf[os[q]] != c {
      var x := os[q];
      assert x in os && InGrid(S, G.lists, x) && Mates(S, r, x) && NodeOk(S, x);
      assert x in G.lists[S.colOf[x]];
    }
  }

  /** Unlinking row by row: the pool goes on holding the grid without those rows, and column `c` itself
      keeps its list. */
  lemma {:induction false} RowsOutKeepsLinked(S: Shape, m: Pool, m1: Pool, G: Grid, H: seq<nat>, c: nat, i: nat)
      returns (lists: seq<seq<nat>>)
    requires Good(S, m, G) && c in G.heads && c < |G.lists| && RowNodes(S, G.lists[c]) && i <= |G.lists[c]|
    requires |m1| == |S.colOf| && Linked(S, m1, Grid(H, G.lists))
    ensures Linked(S, RowsOut(S, m1, G.lists[c], i), Grid(H, lists))
    ensures RowsRemoved(S, G.lists, lists, G.lists[c], i) && lists[c] == G.lists[c]
  {
    if i == 0 {
      lists := G.lists;
    } else {
      var l1 := RowsOutKeepsLinked(S, m, m1, G, H, c, i - 1);
      NextRowWhole(S, m, G, c, l1, i - 1);
      var os := S.others[G.lists[c][i - 1]];
      UnlinkRunKeepsLinked(S, RowsOut(S, m1, G.lists[c], i - 1), Grid(H, l1), os, |os|);
      lists := RemoveRun(S, l1, os, |os|);
      OtherListsKept(S, l1, os, |os|, c);
      RowsRemovedStep(S, G.lists, l1, lists, G.lists[c], i);
    }
  }

  lemma RowsRemovedStep(S: Shape, l0: seq<seq<nat>>, l1: seq<seq<nat>>, l2: seq<seq<nat>>, rows: seq<nat>, i: nat)
    requires RowNodes(S, rows) && 0 < i <= |rows| && RowsRemoved(S, l0, l1, rows, i - 1)
    requires RemovedAll(S, l1, l2, S.others[rows[i - 1]], |S.others[rows[i - 1]]|)
    ensures RowsRemoved(S, l0, l2, rows, i)
  {
    var os := S.others[rows[i - 1]];
    forall x ensures MateOfSome(S, rows, i, x) <==> MateOfSome(S, rows, i - 1, x) || Among(x, os, |os|) {
    }
  }

  lemma {:induction false} OtherListsKept(S: Shape, lists: seq<seq<nat>>, ks: seq<nat>, i: nat, c: nat)
    requires i <= |ks| && c < |lists|
    requires forall q :: 0 <= q < |ks| ==> ks[q] < |S.colOf| && S.colOf[ks[q]] < |lists| && S.colOf[ks[q]] != c
    ensures RemoveRun(S, lists, ks, i)[c] == lists[c]
  {
    if i > 0 {
      OtherListsKept(S, lists, ks, i - 1, c);
    }
  }

  // ---- cover ----

  /** The pool after `cover(c)`. */
  ghost function Covered(S: Shape, m: Pool, G: Grid, c: nat): (m2: Pool)
    requires Good(S, m, G) && c in G.heads
    ensures SameLabels(m, m2)
  {
    RowNodesOk(S, m, G, c);
    RowsOut(S, UnlinkHead(m, c), G.lists[c], |G.lists[c]|)
  }

  /** The pool after `uncover(c)` where `G` is the grid before the cover being undone. */
  ghost function Uncovered(S: Shape, m: Pool, G: Grid, c: nat): (m2: Pool)
    requires InRange(m) && |m| == |S.colOf| && c < |m| && c < |G.lists| && RowNodes(S, G.lists[c])
  {
    RelinkHead(RowsIn(S, m, G.lists[c], |G.lists[c]|), c)
  }

  /** What covering `c` means for the matrix: the header goes, and so does every row with a node in
      column `c`, from every column but `c` itself. */
  ghost predicate CoverEffect(S: Shape, G: Grid, G2: Grid, c: nat) {
    && |S.colOf| == |S.others| == |G.lists| == |G2.lists|
    && c in G.heads && c < |G.lists| && G2.lists[c] == G.lists[c]
    && |G2.heads| == |G.heads| - 1
    && (forall d :: d in G2.heads <==> d in G.heads && d != c)
    && (forall d, x {:trigger x in G2.lists[d]} {:trigger x in G.lists[d]} ::
          d in G.heads && d != c && d < |G.lists| ==>
          (x in G2.lists[d] <==> x in G.lists[d] && x < |S.colOf| && !Touches(S, x, c)))
  }

  /** In the grid, a row meets column `c` exactly when it is the row of a node listed there. */
  lemma KilledIffTouches(S: Shape, m: Pool, G: Grid, c: nat, d: nat, x: nat)
    requires Good(S, m, G) && c in G.heads && d in G.heads && d != c
    requires c < |G.lists| && d < |G.lists| && x in G.lists[d] && RowNodes(S, G.lists[c])
    ensures x < |S.colOf| && x in S.nodes && S.colOf[x] == d
    ensures MateOfSome(S, G.lists[c], |G.lists[c]|, x) <==> Touches(S, x, c)
  {
    assert c in S.cols && d in S.cols;
    assert ColumnOk(S, m, G, d) && ColumnOk(S, m, G, c);
    assert NodeOk(S, x);
    if Touches(S, x, c) {
      var k :| k in S.others[x] && S.colOf[k] == c;
      assert RowClosed(S, G, x) && Mates(S, x, k);
      assert InGrid(S, G.lists, k) && k in G.lists[c];
      var i :| 0 <= i < |G.lists[c]| && G.lists[c][i] == k;
      assert x in S.others[G.lists[c][i]];
    }
    if MateOfSome(S, G.lists[c], |G.lists[c]|, x) {
      var i :| 0 <= i < |G.lists[c]| && x in S.others[G.lists[c][i]];
      var r := G.lists[c][i];
      assert r in G.lists[c] && NodeOk(S, r) && Mates(S, r, x);
    }
  }

  lemma CoverKeepsLinked(S: Shape, m: Pool, G: Grid, c: nat) returns (G2: Grid)
    requires Good(S, m, G) && c in G.heads
    ensures Linked(S, Covered(S, m, G, c), G2) && CoverEffect(S, G, G2, c)
  {
    RowNodesOk(S, m, G, c);
    HeadUnlinked(S, m, G, c);
    var lists := RowsOutKeepsLinked(S, m, UnlinkHead(m, c), G, Drop(G.heads, c), c, |G.lists[c]|);
    G2 := Grid(Drop(G.heads, c), lists);
    DropElements(G.heads, c);
    forall d, x | d in G.heads && d != c && d < |G.lists|
      ensures x in lists[d] <==> x in G.lists[d] && x < |S.colOf| && !Touches(S, x, c)
    {
      assert d in S.cols;
      if x in G.lists[d] {
        KilledIffTouches(S, m, G, c, d, x);
      }
    }
  }

  lemma CoverKeepsClosed(S: Shape, m: Pool, G: Grid, c: nat, G2: Grid)
    requires Good(S, m, G) && CoverEffect(S, G, G2, c)
    ensures Closed(S, G2)
  {
    forall d, n | d in G2.heads && d < |G2.lists| && n in G2.lists[d]
      ensures n < |S.colOf| && RowClosed(S, G2, n)
    {
      assert n in G.lists[d] && RowClosed(S, G, n);
      assert d in S.cols && ColumnOk(S, m, G, d) && NodeOk(S, n);
      forall k | k in S.others[n] ensures InGrid(S, G2.lists, k) && S.colOf[k] in G2.heads {
        assert InGrid(S, G.lists, k) && Mates(S, n, k);
        SameTouches(S, n, k, c);
      }
    }
  }

  /** Nodes of one row touch the same columns. */
  lemma SameTouches(S: Shape, n: nat, k: nat, c: nat)
    requires ValidShape(S) && n in S.nodes && n < |S.colOf| && NodeOk(S, n) && k in S.others[n]
    ensures k < |S.colOf| && (Touches(S, n, c) <==> Touches(S, k, c))
  {
    assert Mates(S, n, k) && NodeOk(S, k) && Mates(S, k, n);
  }

  /** The grid after `cover(c)`. */
  ghost function CoverGrid(S: Shape, m: Pool, G: Grid, c: nat): (G2: Grid)
    requires Good(S, m, G) && c in G.heads
    ensures Good(S, Covered(S, m, G, c), G2) && CoverEffect(S, G, G2, c)
  {
    CoverKeepsGood(S, m, G, c);
    var G2 :| Good(S, Covered(S, m, G, c), G2) && CoverEffect(S, G, G2, c);
    G2
  }

  /** Covering keeps the pool good: what is left is again a matrix of whole rows. */
  lemma CoverKeepsGood(S: Shape, m: Pool, G: Grid, c: nat)
    requires Good(S, m, G) && c in G.heads
    ensures exists G2 :: Good(S, Covered(S, m, G, c), G2) && CoverEffect(S, G, G2, c)
  {
    var G2 := CoverKeepsLinked(S, m, G, c);
    CoverKeepsClosed(S, m, G, c, G2);
  }

  // ---- uncover ----

  /** Putting the rows back in the opposite order is the exact inverse of taking them out. */
  lemma {:induction false} RowsInUndoesRowsOut(S: Shape, m: Pool, m1: Pool, G: Grid, H: seq<nat>, c: nat, i: nat)
    requires Good(S, m, G) && c in G.heads && c < |G.lists| && RowNodes(S, G.lists[c]) && i <= |G.lists[c]|
    requires |m1| == |S.colOf| && Linked(S, m1, Grid(H, G.lists))
    ensures RowsIn(S, RowsOut(S, m1, G.lists[c], i), G.lists[c], i) == m1
    decreases i
  {
    if i > 0 {
      var lists := RowsOutKeepsLinked(S, m, m1, G, H, c, i - 1);
      NextRowWhole(S, m, G, c, lists, i - 1);
      var os := S.others[G.lists[c][i - 1]];
      RelinkRunUndoesUnlinkRun(S, RowsOut(S, m1, G.lists[c], i - 1), Grid(H, lists), os, |os|);
      RowsInUndoesRowsOut(S, m, m1, G, H, c, i - 1);
    }
  }

  lemma HeadMirror(S: Shape, m: Pool, G: Grid, c: nat)
    requires Linked(S, m, G) && c in G.heads
    ensures c < |m| && m[c].left != c && m[c].right != c && m[m[c].right].left == c && m[m[c].left].right == c
  {
    RingMirror(Rights(m), Lefts(m), ROOT, G.heads, c);
  }

  lemma HeadUndo(S: Shape, m: Pool, G: Grid, c: nat)
    requires Linked(S, m, G) && c in G.heads
    ensures c < |m| && RelinkHead(UnlinkHead(m, c), c) == m
  {
    HeadMirror(S, m, G, c);
    RelinkHeadUndoesUnlinkHead(m, c);
  }

  /** `uncover(c)` after `cover(c)` restores every field of every node. */
  lemma UncoverUndoesCover(S: Shape, m: Pool, G: Grid, c: nat)
    requires Good(S, m, G) && c in G.heads
    ensures c < |m| && c < |G.lists| && RowNodes(S, G.lists[c]) && InRange(Covered(S, m, G, c))
    ensures Uncovered(S, Covered(S, m, G, c), G, c) == m
  {
    RowNodesOk(S, m, G, c);
    HeadUnlinked(S, m, G, c);
    RowsInUndoesRowsOut(S, m, UnlinkHead(m, c), G, Drop(G.heads, c), c, |G.lists[c]|);
    HeadUndo(S, m, G, c);
  }
}
