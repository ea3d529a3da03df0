/** What the pool of nodes holds: a sparse 0/1 matrix as a torus of rings, and how `cover` changes it. */
module Matrix {
  import opened Rings
  import opened Torus

  /** The part of the matrix that never changes: which slots are column headers, which are matrix
      nodes, the column of each node, and the other nodes of its row in left-to-right ring order. */
  datatype Shape = Shape(cols: set<nat>, nodes: set<nat>, colOf: seq<nat>, others: seq<seq<nat>>)

  /** The part that `cover` edits: the listed headers and the vertical list of each column. */
  datatype Grid = Grid(heads: seq<nat>, lists: seq<seq<nat>>)

  const ROOT: nat := 0

  /** `k` is another node of the row of `n`: a different column, and the same row seen from `k`. */
  ghost predicate Mates(S: Shape, n: nat, k: nat)
    requires |S.colOf| == |S.others| && n < |S.colOf|
  {
    && k in S.nodes && k < |S.colOf| && k != n && S.colOf[k] != S.colOf[n] && n in S.others[k]
    && forall b :: b in S.others[n] && b != k ==> b in S.others[k]
  }

  ghost predicate NodeOk(S: Shape, n: nat)
    requires |S.colOf| == |S.others|
  {
    && n < |S.colOf| && S.colOf[n] in S.cols && Distinct(S.others[n])
    && forall k {:trigger k in S.others[n]} :: k in S.others[n] ==> Mates(S, n, k)
  }

  /** Every row has at most one node per column, and its nodes agree on who is in the row. */
  ghost predicate ValidShape(S: Shape) {
    && |S.colOf| == |S.others|
    && ROOT < |S.colOf| && ROOT !in S.cols && ROOT !in S.nodes && S.cols !! S.nodes
    && (forall c {:trigger c in S.cols} :: c in S.cols ==> c < |S.colOf|)
    && (forall n {:trigger NodeOk(S, n)} :: n in S.nodes ==> NodeOk(S, n))
  }

  /** Column `c` as the pool holds it: its vertical ring and its size field. */
  ghost predicate ColumnOk(S: Shape, m: Pool, G: Grid, c: nat)
    requires c < |m| == |G.lists| == |S.colOf|
  {
    && IsRing(Downs(m), Ups(m), c, G.lists[c])
    && m[c].size == |G.lists[c]|
    && forall x :: x in G.lists[c] ==> x in S.nodes && x < |S.colOf| && S.colOf[x] == c
  }

  /** Node `n` as the pool holds it: its column, and the ring of its row. */
  ghost predicate RowOk(S: Shape, m: Pool, n: nat)
    requires |S.others| == |S.colOf| == |m|
  {
    n < |m| && m[n].col == S.colOf[n] && IsRing(Rights(m), Lefts(m), n, S.others[n])
  }

  ghost predicate RowsOk(S: Shape, m: Pool)
    requires |S.others| == |S.colOf| == |m|
  {
    forall n {:trigger RowOk(S, m, n)} :: n in S.nodes ==> RowOk(S, m, n)
  }

  ghost predicate HeadsOk(S: Shape, m: Pool, G: Grid) {
    IsRing(Rights(m), Lefts(m), ROOT, G.heads) && forall c :: c in G.heads ==> c in S.cols
  }

  /** The pool holds grid `G` of shape `S`. */
  ghost predicate Linked(S: Shape, m: Pool, G: Grid) {
    && ValidShape(S) && InRange(m) && |m| == |S.colOf| == |G.lists|
    && RowsOk(S, m) && HeadsOk(S, m, G)
    && forall c {:trigger ColumnOk(S, m, G, c)} :: c in S.cols ==> ColumnOk(S, m, G, c)
  }

  // ---- removing one node ----

  function RemoveNode(S: Shape, lists: seq<seq<nat>>, j: nat): (l2: seq<seq<nat>>)
    requires j < |S.colOf| && S.colOf[j] < |lists|
    ensures |l2| == |lists|
  {
    lists[S.colOf[j] := Drop(lists[S.colOf[j]], j)]
  }

  /** `j` is a matrix node still in its vertical ring. */
  ghost predicate InGrid(S: Shape, lists: seq<seq<nat>>, j: nat) {
    j in S.nodes && j < |S.colOf| && S.colOf[j] < |lists| && j in lists[S.colOf[j]]
  }

  lemma UnlinkOwnColumn(S: Shape, m: Pool, G: Grid, j: nat, c: nat)
    requires InRange(m) && |m| == |S.colOf| == |G.lists| && c < |m| && j < |m| && S.colOf[j] == c
    requires ColumnOk(S, m, G, c) && j in G.lists[c] && m[j].col == c
    ensures ColumnOk(S, Unlink(m, j), G.(lists := RemoveNode(S, G.lists, j)), c)
  {
    UnlinkIs(m, j);
    RingRemove(Downs(m), Ups(m), c, G.lists[c], j);
    DropElements(G.lists[c], j);
    assert Sizes(Unlink(m, j))[c] == Unlink(m, j)[c].size;
  }

  lemma UnlinkOtherColumn(S: Shape, m: Pool, G: Grid, j: nat, c: nat, d: nat)
    requires InRange(m) && |m| == |S.colOf| == |G.lists| && c < |m| && d < |m| && j < |m| && c != d
    requires S.cols !! S.nodes && c in S.cols && d in S.cols && S.colOf[j] == c && m[j].col == c
    requires ColumnOk(S, m, G, c) && ColumnOk(S, m, G, d) && j in G.lists[c]
    ensures ColumnOk(S, Unlink(m, j), G.(lists := RemoveNode(S, G.lists, j)), d)
  {
    UnlinkIs(m, j);
    RingMirror(Downs(m), Ups(m), c, G.lists[c], j);
    var m2 := Unlink(m, j);
    RingFrame(Downs(m), Ups(m), Downs(m2), Ups(m2), d, G.lists[d]);
    assert Sizes(m2)[d] == m2[d].size && Sizes(m)[d] == m[d].size;
  }

  lemma UnlinkRow(S: Shape, m: Pool, j: nat, n: nat)
    requires InRange(m) && |m| == |S.colOf| == |S.others| && j < |m| && RowOk(S, m, n)
    ensures RowOk(S, Unlink(m, j), n)
  {
    UnlinkIs(m, j);
  }

  lemma UnlinkKeepsLinked(S: Shape, m: Pool, G: Grid, j: nat)
    requires Linked(S, m, G) && InGrid(S, G.lists, j)
    ensures Linked(S, Unlink(m, j), G.(lists := RemoveNode(S, G.lists, j)))
  {
    UnlinkIs(m, j);
    var c := S.colOf[j];
    assert NodeOk(S, j) && RowOk(S, m, j) && ColumnOk(S, m, G, c);
    var m2, G2 := Unlink(m, j), G.(lists := RemoveNode(S, G.lists, j));
    forall d | d in S.cols ensures d < |m| && ColumnOk(S, m2, G2, d) {
      assert ColumnOk(S, m, G, d);
      if d == c {
        UnlinkOwnColumn(S, m, G, j, c);
      } else {
        UnlinkOtherColumn(S, m, G, j, c, d);
      }
    }
    forall n | n in S.nodes ensures RowOk(S, m2, n) {
      assert RowOk(S, m, n);
      UnlinkRow(S, m, j, n);
    }
  }

  lemma InGridMirror(S: Shape, m: Pool, G: Grid, j: nat)
    requires Linked(S, m, G) && InGrid(S, G.lists, j)
    ensures j < |m| && m[j].up != j && m[j].down != j && m[m[j].down].up == j && m[m[j].up].down == j
  {
    assert NodeOk(S, j) && RowOk(S, m, j) && ColumnOk(S, m, G, S.colOf[j]);
    RingMirror(Downs(m), Ups(m), S.colOf[j], G.lists[S.colOf[j]], j);
  }

  // ---- removing a list of nodes ----

  function RemoveRun(S: Shape, lists: seq<seq<nat>>, ks: seq<nat>, i: nat): (l2: seq<seq<nat>>)
    requires i <= |ks| && forall q :: 0 <= q < |ks| ==> ks[q] < |S.colOf| && S.colOf[ks[q]] < |lists|
    ensures |l2| == |lists|
  {
    if i == 0 then lists else RemoveNode(S, RemoveRun(S, lists, ks, i - 1), ks[i - 1])
  }

  ghost predicate AllInGrid(S: Shape, lists: seq<seq<nat>>, ks: seq<nat>) {
    forall i :: 0 <= i < |ks| ==> InGrid(S, lists, ks[i])
  }

  ghost predicate Among(x: nat, ks: seq<nat>, i: nat)
    requires i <= |ks|
  {
    exists q :: 0 <= q < i && ks[q] == x
  }

  /** Column by column, `l2` holds what `l1` holds except the first `i` of `ks`. */
  ghost predicate RemovedAll(S: Shape, l1: seq<seq<nat>>, l2: seq<seq<nat>>, ks: seq<nat>, i: nat)
    requires i <= |ks|
  {
    && |l2| == |l1|
    && forall c, x {:trigger x in l1[c]} {:trigger x in l2[c]} ::
         c in S.cols && c < |l1| ==> (x in l2[c] <==> x in l1[c] && !Among(x, ks, i))
  }

  /** Unlinking distinct nodes one after another: the pool goes on holding the grid without them. */
  lemma {:induction false} UnlinkRunKeepsLinked(S: Shape, m: Pool, G: Grid, ks: seq<nat>, i: nat)
    requires Linked(S, m, G) && AllInGrid(S, G.lists, ks) && Distinct(ks) && i <= |ks|
    ensures Slots(m, ks) && Linked(S, UnlinkRun(m, ks, i), G.(lists := RemoveRun(S, G.lists, ks, i)))
    ensures RemovedAll(S, G.lists, RemoveRun(S, G.lists, ks, i), ks, i)
  {
    AllSlots(S, m, G, ks);
    if i > 0 {
      UnlinkRunKeepsLinked(S, m, G, ks, i - 1);
      var l1 := RemoveRun(S, G.lists, ks, i - 1);
      StillInGrid(S, G.lists, l1, ks, i - 1);
      UnlinkKeepsLinked(S, UnlinkRun(m, ks, i - 1), G.(lists := l1), ks[i - 1]);
      RemovedOneMore(S, UnlinkRun(m, ks, i - 1), G, l1, ks, i);
    }
  }

  lemma AllSlots(S: Shape, m: Pool, G: Grid, ks: seq<nat>)
    requires Linked(S, m, G) && AllInGrid(S, G.lists, ks)
    ensures Slots(m, ks)
  {
    forall i | 0 <= i < |ks| ensures ks[i] < |m| {
      assert InGrid(S, G.lists, ks[i]);
    }
  }

  lemma StillInGrid(S: Shape, l0: seq<seq<nat>>, l1: seq<seq<nat>>, ks: seq<nat>, i: nat)
    requires ValidShape(S) && AllInGrid(S, l0, ks) && Distinct(ks) && i < |ks| && RemovedAll(S, l0, l1, ks, i)
    ensures InGrid(S, l1, ks[i])
  {
    assert InGrid(S, l0, ks[i]) && NodeOk(S, ks[i]);
    assert ks[i] in l0[S.colOf[ks[i]]];
  }

  lemma RemovedOneMore(S: Shape, m1: Pool, G: Grid, l1: seq<seq<nat>>, ks: seq<nat>, i: nat)
    requires 0 < i <= |ks| && RemovedAll(S, G.lists, l1, ks, i - 1)
    requires Linked(S, m1, G.(lists := l1)) && InGrid(S, l1, ks[i - 1])
    ensures RemovedAll(S, G.lists, RemoveNode(S, l1, ks[i - 1]), ks, i)
  {
    var j := ks[i - 1];
    forall x ensures Among(x, ks, i) <==> Among(x, ks, i - 1) || x == j {
    }
    var l2 := RemoveNode(S, l1, j);
    forall c, x | c in S.cols && c < |l1| ensures x in l2[c] <==> x in l1[c] && x != j {
      assert ColumnOk(S, m1, G.(lists := l1), c);
      DropElements(l1[c], j);
    }
  }

  /** One backward step: relinking the node unlinked last gives the pool as it was before that. */
  lemma UndoStep(S: Shape, m: Pool, G: Grid, ks: seq<nat>, i: nat)
    requires Linked(S, m, G) && AllInGrid(S, G.lists, ks) && Distinct(ks) && 0 < i <= |ks|
    ensures Slots(m, ks)
    ensures Relink(UnlinkRun(m, ks, i), ks[i - 1]) == UnlinkRun(m, ks, i - 1)
  {
    UnlinkRunKeepsLinked(S, m, G, ks, i - 1);
    var l1 := RemoveRun(S, G.lists, ks, i - 1);
    StillInGrid(S, G.lists, l1, ks, i - 1);
    var m1 := UnlinkRun(m, ks, i - 1);
    InGridMirror(S, m1, G.(lists := l1), ks[i - 1]);
    RelinkUndoesUnlink(m1, ks[i - 1]);
  }

  /** Relinking in the opposite order is the exact inverse. */
  lemma {:induction false} RelinkRunUndoesUnlinkRun(S: Shape, m: Pool, G: Grid, ks: seq<nat>, i: nat)
    requires Linked(S, m, G) && AllInGrid(S, G.lists, ks) && Distinct(ks) && i <= |ks|
    ensures Slots(m, ks) && RelinkRun(UnlinkRun(m, ks, i), ks, i) == m
    decreases i
  {
    AllSlots(S, m, G, ks);
    if i > 0 {
      UndoStep(S, m, G, ks, i);
      RelinkRunUndoesUnlinkRun(S, m, G, ks, i - 1);
    }
  }
}
