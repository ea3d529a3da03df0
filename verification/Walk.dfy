/** What the loops of `cover` and `uncover` read while they edit the rings they walk. */
module Walk {
  import opened Rings
  import opened Torus
  import opened Matrix
  import opened Cover

  /** Following a ring from its body, in both directions. */
  lemma RingReads(nxt: seq<nat>, prv: seq<nat>, h: nat, s: seq<nat>, i: nat)
    requires IsRing(nxt, prv, h, s) && i < |s|
    ensures s[i] < |nxt| && s[i] != h && nxt[s[i]] == After(h, s, i) && prv[s[i]] == Before(h, s, i)
  {
    assert LinkAt(nxt, prv, h, s, i);
    assert s[i] in s;
  }

  /** When `i` rows of column `c` are out, the column and its next row still read as before. */
  lemma MidCover(S: Shape, m: Pool, G: Grid, c: nat, i: nat) returns (G2: Grid)
    requires Good(S, m, G) && c in G.heads && c < |G.lists| && RowNodes(S, G.lists[c]) && i <= |G.lists[c]|
    ensures c < |m| == |S.colOf|
    ensures var m1 := RowsOut(S, UnlinkHead(m, c), G.lists[c], i);
      && Linked(S, m1, G2)
      && IsRing(Downs(m1), Ups(m1), c, G.lists[c])
      && (i < |G.lists[c]| ==>
            && IsRing(Rights(m1), Lefts(m1), G.lists[c][i], S.others[G.lists[c][i]])
            && AllInGrid(S, G2.lists, S.others[G.lists[c][i]])
            && Distinct(S.others[G.lists[c][i]]))
  {
    RowNodesOk(S, m, G, c);
    HeadUnlinked(S, m, G, c);
    var lists := RowsOutKeepsLinked(S, m, UnlinkHead(m, c), G, Drop(G.heads, c), c, i);
    G2 := Grid(Drop(G.heads, c), lists);
    var m1 := RowsOut(S, UnlinkHead(m, c), G.lists[c], i);
    assert ColumnOk(S, m1, G2, c);
    if i < |G.lists[c]| {
      NextRowWhole(S, m, G, c, lists, i);
      assert RowOk(S, m1, G.lists[c][i]);
    }
  }

  /** `ks` can be put back one by one, the last one first. */
  ghost predicate Undoable(m: Pool, ks: seq<nat>)
    requires InRange(m) && Slots(m, ks)
  {
    forall p {:trigger UnlinkRun(m, ks, p)} :: 0 < p <= |ks| ==>
      Relink(UnlinkRun(m, ks, p), ks[p - 1]) == UnlinkRun(m, ks, p - 1)
  }

  /** What the outer loops read when the first `i` rows of column `c` are out, in pool `m1`. */
  ghost predicate ColumnReads(m1: Pool, rows: seq<nat>, c: nat, i: nat)
    requires i <= |rows|
  {
    && c < |m1| && m1[c].down == First(c, rows) && m1[c].up == Last(c, rows)
    && (i < |rows| ==> rows[i] < |m1| && rows[i] != c && m1[rows[i]].up == Before(c, rows, i))
    && (0 < i ==> rows[i - 1] < |m1| && rows[i - 1] != c && m1[rows[i - 1]].down == After(c, rows, i - 1))
  }

  /** What the inner loops need of the next row. */
  ghost predicate RowReads(S: Shape, m1: Pool, row: nat)
    requires row < |S.others|
  {
    && InRange(m1) && Slots(m1, S.others[row]) && IsRing(Rights(m1), Lefts(m1), row, S.others[row])
    && Undoable(m1, S.others[row])
  }

  /** Column `c` with rows `rows` can be walked, in either direction, while its rows go out or in. */
  ghost predicate Walkable(S: Shape, m: Pool, rows: seq<nat>, c: nat) {
    && InRange(m) && |m| == |S.colOf| && c < |m| && RowNodes(S, rows)
    && (forall i {:trigger ColumnReads(RowsOut(S, m, rows, i), rows, c, i)} :: 0 <= i <= |rows| ==>
          ColumnReads(RowsOut(S, m, rows, i), rows, c, i))
    && (forall i {:trigger RowReads(S, RowsOut(S, m, rows, i), rows[i])} :: 0 <= i < |rows| ==>
          RowReads(S, RowsOut(S, m, rows, i), rows[i]))
  }

  lemma CoverWalkable(S: Shape, m: Pool, G: Grid, c: nat)
    requires Good(S, m, G) && c in G.heads
    ensures c < |m| && c < |G.lists| && Walkable(S, UnlinkHead(m, c), G.lists[c], c)
  {
    RowNodesOk(S, m, G, c);
    var m1, rows := UnlinkHead(m, c), G.lists[c];
    forall i | 0 <= i <= |rows|
      ensures ColumnReads(RowsOut(S, m1, rows, i), rows, c, i)
      ensures i < |rows| ==> RowReads(S, RowsOut(S, m1, rows, i), rows[i])
    {
      MidReads(S, m, G, c, i);
    }
  }

  lemma RowUndoable(S: Shape, m: Pool, G: Grid, os: seq<nat>)
    requires Linked(S, m, G) && AllInGrid(S, G.lists, os) && Distinct(os)
    ensures Slots(m, os) && Undoable(m, os)
  {
    forall p | 0 < p <= |os| ensures Relink(UnlinkRun(m, os, p), os[p - 1]) == UnlinkRun(m, os, p - 1) {
      UndoStep(S, m, G, os, p);
    }
  }

  lemma MidReads(S: Shape, m: Pool, G: Grid, c: nat, i: nat)
    requires Good(S, m, G) && c in G.heads && c < |G.lists| && RowNodes(S, G.lists[c]) && i <= |G.lists[c]|
    ensures c < |m| == |S.colOf|
    ensures var m1, rows := RowsOut(S, UnlinkHead(m, c), G.lists[c], i), G.lists[c];
      ColumnReads(m1, rows, c, i) && (i < |rows| ==> RowReads(S, m1, rows[i]))
  {
    var rows := G.lists[c];
    var G2 := MidCover(S, m, G, c, i);
    var m1 := RowsOut(S, UnlinkHead(m, c), rows, i);
    if i > 0 { RingReads(Downs(m1), Ups(m1), c, rows, i - 1); }
    if i < |rows| {
      RingReads(Downs(m1), Ups(m1), c, rows, i);
      RowUndoable(S, m1, G2, S.others[rows[i]]);
    }
  }
}
