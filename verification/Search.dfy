/** The states `solve` passes through, and what its loops read in them. */
module Search {
  import opened Rings
  import opened Torus
  import opened Matrix
  import opened Cover
  import opened ExactCover
  import opened Walk

  // ---- what is left after the rows on the stack ----

  /** `G` is the part of `G0` that the rows on the stack leave: the columns none of them touches, and
      the rows that share no column with any of them. */
  ghost predicate Remaining(S: Shape, G0: Grid, G: Grid, stack: seq<nat>) {
    && |S.colOf| == |S.others| && (forall i :: 0 <= i < |stack| ==> stack[i] in S.nodes && stack[i] < |S.colOf|)
    && (forall d {:trigger d in G.heads} {:trigger d in G0.heads} ::
          d in G.heads <==> d in G0.heads && !Hit(S, stack, d))
    && (forall x {:trigger InGridRow(S, G, x)} {:trigger InGridRow(S, G0, x)} ::
          InGridRow(S, G, x) <==> InGridRow(S, G0, x) && !MeetSome(S, stack, x))
  }

  ghost predicate MeetSome(S: Shape, stack: seq<nat>, x: nat)
    requires |S.colOf| == |S.others| && x < |S.colOf|
  {
    exists i :: 0 <= i < |stack| && stack[i] < |S.colOf| && Meet(S, stack[i], x)
  }

  lemma NothingChosen(S: Shape, m: Pool, G: Grid)
    requires Good(S, m, G)
    ensures Remaining(S, G, G, [])
  {
  }

  lemma RemainingStep(S: Shape, G0: Grid, G: Grid, G2: Grid, stack: seq<nat>, n: nat)
    requires Remaining(S, G0, G, stack) && Leaves(S, G, G2, n)
    ensures Remaining(S, G0, G2, stack + [n])
  {
    var t := stack + [n];
    assert forall i :: 0 <= i < |stack| ==> t[i] == stack[i];
    forall d ensures Hit(S, t, d) <==> Hit(S, stack, d) || Touches(S, n, d) {
      if Touches(S, n, d) { assert t[|stack|] == n; }
      if Hit(S, stack, d) {
        var i :| 0 <= i < |stack| && stack[i] < |S.colOf| && Touches(S, stack[i], d);
        assert t[i] == stack[i];
      }
    }
    forall x | InGridRow(S, G0, x) ensures MeetSome(S, t, x) <==> MeetSome(S, stack, x) || Meet(S, n, x) {
      if Meet(S, n, x) { assert t[|stack|] == n; }
      if MeetSome(S, stack, x) {
        var i :| 0 <= i < |stack| && stack[i] < |S.colOf| && Meet(S, stack[i], x);
        assert t[i] == stack[i];
      }
    }
  }

  // ---- covering the columns of a chosen row ----

  /** Pool and grid when the first `k` columns of the row of `n` are covered. */
  ghost function PartCovered(S: Shape, m: Pool, G: Grid, n: nat, k: nat): (r: (Pool, Grid))
    requires Good(S, m, G) && InGridRow(S, G, n) && n < |S.others| && k <= |S.others[n]| + 1
    ensures Good(S, r.0, r.1) && SameLabels(m, r.0)
  {
    RowCoverable(S, m, G, n);
    var cs := RowColumns(S, n);
    assert Coverable(G, cs[..k]);
    CoverAll(S, m, G, cs[..k])
  }

  ghost function RowColumn(S: Shape, n: nat, k: nat): nat
    requires n < |S.colOf| == |S.others| && k <= |S.others[n]|
    requires k > 0 ==> S.others[n][k - 1] < |S.colOf|
  {
    if k == 0 then S.colOf[n] else S.colOf[S.others[n][k - 1]]
  }

  lemma PartStep(S: Shape, m: Pool, G: Grid, n: nat, k: nat)
    requires Good(S, m, G) && InGridRow(S, G, n) && n < |S.others| && k <= |S.others[n]|
    ensures k > 0 ==> S.others[n][k - 1] < |S.colOf|
    ensures var c, p := RowColumn(S, n, k), PartCovered(S, m, G, n, k);
      && c in p.1.heads
      && PartCovered(S, m, G, n, k + 1).0 == Covered(S, p.0, p.1, c)
      && PartCovered(S, m, G, n, k + 1).1 == CoverGrid(S, p.0, p.1, c)
  {
    RowCoverable(S, m, G, n);
    var cs := RowColumns(S, n);
    if k > 0 { assert S.others[n][k - 1] in S.others[n]; }
    assert cs[k] == RowColumn(S, n, k);
    assert cs[..k + 1] == cs[..k] + [cs[k]];
    CoverOneMore(S, m, G, cs[..k], cs[k]);
  }

  lemma PartEnds(S: Shape, m: Pool, G: Grid, n: nat)
    requires Good(S, m, G) && InGridRow(S, G, n) && n < |S.others|
    ensures PartCovered(S, m, G, n, 0) == (m, G)
    ensures PartCovered(S, m, G, n, |S.others[n]| + 1) == RowCovered(S, m, G, n)
  {
    RowCoverable(S, m, G, n);
    var cs := RowColumns(S, n);
    assert cs[..0] == [] && cs[..|cs|] == cs;
  }

  /** The ring of any row, read in any good pool. */
  ghost predicate RowWalk(S: Shape, m: Pool, n: nat)
    requires n < |S.others| == |S.colOf|
  {
    && n < |m| && m[n].right == First(n, S.others[n]) && m[n].left == Last(n, S.others[n])
    && (forall q {:trigger S.others[n][q]} :: 0 <= q < |S.others[n]| ==>
          var j := S.others[n][q];
          && j < |m| && j < |S.colOf| && j != n && j in S.nodes && m[j].col == S.colOf[j]
          && m[j].right == After(n, S.others[n], q) && m[j].left == Before(n, S.others[n], q))
  }

  lemma GoodRowWalk(S: Shape, m: Pool, G: Grid, n: nat)
    requires Good(S, m, G) && n in S.nodes
    ensures n < |S.others| == |S.colOf| && m != [] && RowWalk(S, m, n)
  {
    assert NodeOk(S, n) && RowOk(S, m, n);
    forall q | 0 <= q < |S.others[n]|
      ensures var j := S.others[n][q];
        && j < |m| && j < |S.colOf| && j != n && j in S.nodes && m[j].col == S.colOf[j]
        && m[j].right == After(n, S.others[n], q) && m[j].left == Before(n, S.others[n], q)
    {
      RingReads(Rights(m), Lefts(m), n, S.others[n], q);
      var j := S.others[n][q];
      assert j in S.others[n];
      assert RowOk(S, m, j);
    }
  }

  /** Step `k` of a plan leads from a good pool to the same pool with one more column of the row of `n`
      covered. */
  ghost predicate StepAt(S: Shape, ps: seq<(Pool, Grid)>, n: nat, k: nat)
    requires n < |S.others| == |S.colOf| && k <= |S.others[n]| && k + 1 < |ps|
  {
    && Good(S, ps[k].0, ps[k].1)
    && (k > 0 ==> S.others[n][k - 1] < |S.colOf|)
    && RowColumn(S, n, k) in ps[k].1.heads
    && ps[k + 1].0 == Covered(S, ps[k].0, ps[k].1, RowColumn(S, n, k))
  }

  /** The pools and grids from `(m, G)` to the state in which all columns of the row of `n` are covered. */
  ghost predicate IsPlan(S: Shape, ps: seq<(Pool, Grid)>, n: nat) {
    && n < |S.others| == |S.colOf| && |ps| == |S.others[n]| + 2
    && (forall k {:trigger RowWalk(S, ps[k].0, n)} :: 0 <= k < |ps| ==> RowWalk(S, ps[k].0, n))
    && (forall k {:trigger StepAt(S, ps, n, k)} :: 0 <= k < |ps| - 1 ==> StepAt(S, ps, n, k))
  }

  lemma MakePlan(S: Shape, m: Pool, G: Grid, n: nat) returns (ps: seq<(Pool, Grid)>)
    requires Good(S, m, G) && InGridRow(S, G, n)
    ensures IsPlan(S, ps, n) && ps[0] == (m, G) && ps[|ps| - 1] == RowCovered(S, m, G, n)
  {
    RowCoverable(S, m, G, n);
    PartEnds(S, m, G, n);
    ps := seq(|S.others[n]| + 2, k requires 0 <= k < |S.others[n]| + 2 => PartCovered(S, m, G, n, k));
    forall k | 0 <= k < |ps| ensures RowWalk(S, ps[k].0, n) {
      var p := PartCovered(S, m, G, n, k);
      GoodRowWalk(S, p.0, p.1, n);
    }
    forall k | 0 <= k < |ps| - 1 ensures StepAt(S, ps, n, k) {
      PartStep(S, m, G, n, k);
      PlanStep(S, m, G, n, k, ps);
    }
  }

  lemma PlanStep(S: Shape, m: Pool, G: Grid, n: nat, k: nat, ps: seq<(Pool, Grid)>)
    requires Good(S, m, G) && InGridRow(S, G, n) && n < |S.others| && k <= |S.others[n]| && k + 1 < |ps|
    requires ps[k] == PartCovered(S, m, G, n, k) && ps[k + 1] == PartCovered(S, m, G, n, k + 1)
    ensures StepAt(S, ps, n, k)
  {
    PartStep(S, m, G, n, k);
  }

  ghost predicate StepReady(S: Shape, ps: seq<(Pool, Grid)>, n: nat, k: nat) {
    n < |S.others| == |S.colOf| && k <= |S.others[n]| && k + 1 < |ps| && StepAt(S, ps, n, k)
  }

  /** What the loops over a chosen row read at step `k`: the ring of the row, and the column of its
      `k`-th node. */
  lemma PlanReads(S: Shape, ps: seq<(Pool, Grid)>, n: nat, k: nat)
    requires IsPlan(S, ps, n) && 0 < k < |ps|
    ensures var m, os := ps[k].0, S.others[n];
      && n < |m| && m[n].right == First(n, os) && m[n].left == Last(n, os)
      && (k <= |os| ==>
            && os[k - 1] != n && os[k - 1] < |m| && os[k - 1] < |S.colOf| && m[os[k - 1]].col == RowColumn(S, n, k)
            && m[os[k - 1]].left == Before(n, os, k - 1) && StepReady(S, ps, n, k))
      && (k > 1 ==>
            && os[k - 2] != n && os[k - 2] < |m| && os[k - 2] < |S.colOf| && m[os[k - 2]].col == RowColumn(S, n, k - 1)
            && m[os[k - 2]].right == After(n, os, k - 2))
  {
    assert RowWalk(S, ps[k].0, n);
    if k <= |S.others[n]| { assert StepAt(S, ps, n, k); }
  }

  // ---- reading a column while it is covered ----

  /** In the pool where `c` itself is covered, its rows can still be walked downwards. */
  lemma CoveredColumnReads(S: Shape, m: Pool, G: Grid, c: nat)
    requires Good(S, m, G) && c in G.heads
    ensures c < |m| && c < |G.lists| && |Covered(S, m, G, c)| == |m|
    ensures var m1, rows := Covered(S, m, G, c), G.lists[c];
      && m1[c].down == First(c, rows)
      && (forall q {:trigger rows[q]} :: 0 <= q < |rows| ==>
            && rows[q] < |m| && rows[q] != c && rows[q] in S.nodes && InGridRow(S, G, rows[q])
            && S.colOf[rows[q]] == c
            && m1[rows[q]].down == After(c, rows, q))
  {
    RowNodesOk(S, m, G, c);
    var m1, G1, rows := Covered(S, m, G, c), CoverGrid(S, m, G, c), G.lists[c];
    assert ColumnOk(S, m1, G1, c);
    forall q | 0 <= q < |rows|
      ensures rows[q] < |m| && rows[q] != c && rows[q] in S.nodes && InGridRow(S, G, rows[q])
      ensures S.colOf[rows[q]] == c && m1[rows[q]].down == After(c, rows, q)
    {
      RingReads(Downs(m1), Ups(m1), c, rows, q);
      assert rows[q] in rows;
    }
  }

  /** Nothing that choosing the row of `n` leaves can be covered exactly. */
  ghost predicate RowFails(S: Shape, m: Pool, G: Grid, n: nat) {
    && Good(S, m, G) && InGridRow(S, G, n)
    && forall X {:trigger IsExactCover(S, RowCovered(S, m, G, n).1, X)} ::
         !IsExactCover(S, RowCovered(S, m, G, n).1, X)
  }

  ghost predicate AllFail(S: Shape, m: Pool, G: Grid, rows: seq<nat>, i: nat)
    requires i <= |rows|
  {
    forall q {:trigger RowFails(S, m, G, rows[q])} :: 0 <= q < i ==> RowFails(S, m, G, rows[q])
  }

  lemma OneMoreFails(S: Shape, m: Pool, G: Grid, rows: seq<nat>, i: nat)
    requires i < |rows| && AllFail(S, m, G, rows, i) && RowFails(S, m, G, rows[i])
    ensures AllFail(S, m, G, rows, i + 1)
  {
  }

  /** If every row of a listed column fails, there is no exact cover. */
  lemma NoRowNoCover(S: Shape, m: Pool, G: Grid, c: nat)
    requires Good(S, m, G) && c in G.heads && c < |G.lists|
    requires AllFail(S, m, G, G.lists[c], |G.lists[c]|)
    ensures forall X :: !IsExactCover(S, G, X)
  {
    forall X ensures !IsExactCover(S, G, X) {
      if IsExactCover(S, G, X) {
        var n, Y := CoverUsesColumn(S, m, G, c, X);
        ListedRowFails(S, m, G, c, n);
      }
    }
  }

  lemma ListedRowFails(S: Shape, m: Pool, G: Grid, c: nat, n: nat)
    requires c < |G.lists| && n in G.lists[c]
    requires AllFail(S, m, G, G.lists[c], |G.lists[c]|)
    ensures RowFails(S, m, G, n)
  {
    var q :| 0 <= q < |G.lists[c]| && G.lists[c][q] == n;
    assert RowFails(S, m, G, G.lists[c][q]);
  }

  lemma EmptyCover(S: Shape, G: Grid)
    requires |S.colOf| == |S.others| && G.heads == []
    ensures IsExactCover(S, G, [])
  {
  }

  // ---- decoding the rows on the stack ----

  /** For every matrix node, the cell and the digit its row stands for. */
  datatype Labels = Labels(cell: seq<nat>, val: seq<nat>)

  const CELL_NAMES: int := 100

  ghost predicate NodeNamed(L: Labels, name: int, n: nat)
    requires n < |L.cell| == |L.val|
  {
    0 <= name && if name < CELL_NAMES then name == L.cell[n] else name % 10 == L.val[n]
  }

  /** The names of the row of `n` spell its cell and its digit, and spell both. */
  ghost predicate RowNamed(S: Shape, L: Labels, m: Pool, cells: nat, n: nat)
    requires |m| == |S.others| == |L.cell| == |L.val|
  {
    && n < |m| && L.cell[n] < cells
    && NodeNamed(L, m[n].name, n)
    && (forall k {:trigger k in S.others[n]} :: k in S.others[n] ==> k < |m| && NodeNamed(L, m[k].name, n))
    && (m[n].name < CELL_NAMES || exists k :: k in S.others[n] && m[k].name < CELL_NAMES)
    && (m[n].name >= CELL_NAMES || exists k :: k in S.others[n] && m[k].name >= CELL_NAMES)
  }

  ghost predicate Named(S: Shape, L: Labels, m: Pool, cells: nat) {
    && |m| == |S.others| == |L.cell| == |L.val|
    && forall n {:trigger RowNamed(S, L, m, cells, n)} :: n in S.nodes ==> RowNamed(S, L, m, cells, n)
  }

  lemma NamesKept(S: Shape, L: Labels, m: Pool, m2: Pool, cells: nat)
    requires Named(S, L, m, cells) && SameLabels(m, m2)
    ensures Named(S, L, m2, cells)
  {
    forall n | n in S.nodes ensures RowNamed(S, L, m2, cells, n) {
      assert RowNamed(S, L, m, cells, n);
    }
  }

  /** Every stacked row names a cell of the board. */
  ghost predicate StackNamed(S: Shape, L: Labels, stack: seq<nat>, cells: nat) {
    |L.cell| == |L.val| == |S.colOf| == |S.others| &&
    forall i {:trigger stack[i]} :: 0 <= i < |stack| ==>
      stack[i] in S.nodes && stack[i] < |L.cell| && L.cell[stack[i]] < cells
  }

  lemma StackNamedStep(S: Shape, L: Labels, m: Pool, cells: nat, stack: seq<nat>, n: nat)
    requires StackNamed(S, L, stack, cells) && Named(S, L, m, cells) && n in S.nodes
    ensures StackNamed(S, L, stack + [n], cells)
  {
    assert RowNamed(S, L, m, cells, n);
  }

  /** The board after the first `k` stacked rows have been written to it. */
  ghost function Filled(S: Shape, L: Labels, stack: seq<nat>, board: seq<int>, k: nat): (b: seq<int>)
    requires StackNamed(S, L, stack, |board|) && k <= |stack|
    ensures |b| == |board|
  {
    if k == 0 then board
    else Filled(S, L, stack, board, k - 1)[L.cell[stack[k - 1]] := L.val[stack[k - 1]]]
  }

  /** The node `q` steps to the right of `n` in its row, `q` being at most the number of its mates. */
  ghost function RowAt(S: Shape, n: nat, q: nat): nat
    requires n < |S.others| && q <= |S.others[n]|
  {
    if q == 0 then n else S.others[n][q - 1]
  }

  /** Node `k` has been read: its name went into `cell` or into `val`. */
  ghost predicate Seen(m: Pool, k: nat, cell: int, val: int) {
    k < |m| && if m[k].name < CELL_NAMES then cell != -1 else val != -1
  }

  /** `p` nodes of the row of `start` have been read, and `n` is the next one. */
  ghost predicate ReadSoFar(S: Shape, L: Labels, m: Pool, start: nat, p: nat, n: nat, cell: int, val: int)
    requires start < |S.others| == |L.cell| == |L.val|
  {
    && p <= |S.others[start]| + 1 && n == (if p <= |S.others[start]| then RowAt(S, start, p) else start)
    && (cell == -1 || cell == L.cell[start]) && (val == -1 || val == L.val[start])
    && forall q {:trigger RowAt(S, start, q)} :: 0 <= q < p ==> Seen(m, RowAt(S, start, q), cell, val)
  }

  lemma RowNamedAt(S: Shape, L: Labels, m: Pool, cells: nat, n: nat, q: nat)
    requires |m| == |S.others| == |L.cell| == |L.val| && n < |m| && RowNamed(S, L, m, cells, n)
    requires q <= |S.others[n]|
    ensures RowAt(S, n, q) < |m| && NodeNamed(L, m[RowAt(S, n, q)].name, n)
  {
    if q > 0 { assert S.others[n][q - 1] in S.others[n]; }
  }

  /** Once round the row, both parts have been seen. */
  lemma RoundSeesAll(S: Shape, L: Labels, m: Pool, cells: nat, start: nat, n: nat, cell: int, val: int)
    requires |m| == |S.others| == |L.cell| == |L.val| && start < |m| && RowNamed(S, L, m, cells, start)
    requires ReadSoFar(S, L, m, start, |S.others[start]| + 1, n, cell, val)
    ensures cell != -1 && val != -1
  {
    var os := S.others[start];
    assert RowAt(S, start, 0) == start;
    forall k | k in os ensures Seen(m, k, cell, val) {
      var i :| 0 <= i < |os| && os[i] == k;
      assert RowAt(S, start, i + 1) == k;
    }
  }

  lemma RowAtRight(S: Shape, m: Pool, n: nat, q: nat)
    requires n < |S.others| == |S.colOf| && RowWalk(S, m, n) && q <= |S.others[n]|
    ensures RowAt(S, n, q) < |m|
    ensures m[RowAt(S, n, q)].right == if q < |S.others[n]| then RowAt(S, n, q + 1) else n
  {
    if q > 0 { assert S.others[n][q - 1] < |m|; }
  }

  lemma StillSeen(S: Shape, m: Pool, n: nat, p: nat, cell0: int, val0: int, cell: int, val: int)
    requires n < |S.others| && p <= |S.others[n]|
    requires forall q {:trigger RowAt(S, n, q)} :: 0 <= q < p ==> Seen(m, RowAt(S, n, q), cell0, val0)
    requires (cell0 != -1 ==> cell != -1) && (val0 != -1 ==> val != -1) && Seen(m, RowAt(S, n, p), cell, val)
    ensures forall q {:trigger RowAt(S, n, q)} :: 0 <= q < p + 1 ==> Seen(m, RowAt(S, n, q), cell, val)
  {
  }

  /** While a part is missing there is a next node, and reading it goes one step on. */
  lemma ReadStep(S: Shape, L: Labels, m: Pool, cells: nat, start: nat, p: nat, n: nat, cell: int, val: int)
    requires |m| == |S.others| == |S.colOf| == |L.cell| == |L.val| && start < |m|
    requires RowNamed(S, L, m, cells, start) && RowWalk(S, m, start)
    requires ReadSoFar(S, L, m, start, p, n, cell, val) && (cell == -1 || val == -1)
    ensures p <= |S.others[start]| && n < |m|
    ensures if m[n].name < CELL_NAMES then ReadSoFar(S, L, m, start, p + 1, m[n].right, m[n].name, val)
            else ReadSoFar(S, L, m, start, p + 1, m[n].right, cell, m[n].name % 10)
  {
    if p > |S.others[start]| {
      RoundSeesAll(S, L, m, cells, start, n, cell, val);
    } else {
      RowNamedAt(S, L, m, cells, start, p);
      RowAtRight(S, m, start, p);
      if m[n].name < CELL_NAMES {
        StillSeen(S, m, start, p, cell, val, m[n].name, val);
      } else {
        StillSeen(S, m, start, p, cell, val, cell, m[n].name % 10);
      }
    }
  }

  // ---- entering and leaving the search ----

  lemma NoHeads(S: Shape, m: Pool, G: Grid)
    requires Linked(S, m, G)
    ensures m[ROOT].left == ROOT ==> G.heads == []
  {
    if G.heads != [] { RingReads(Rights(m), Lefts(m), ROOT, G.heads, |G.heads| - 1); }
  }

  lemma SomeHead(S: Shape, m: Pool, G: Grid)
    requires Linked(S, m, G)
    ensures m[ROOT].left != ROOT ==> G.heads != []
  {
  }

  /** What a true result of `solve` means: the stack has grown by an exact cover of `G`, and the board is
      the old one with all stacked rows written to it. */
  ghost predicate Solved(S: Shape, L: Labels, G: Grid, stack0: seq<nat>, stack: seq<nat>,
                         board0: seq<int>, board: seq<int>)
  {
    && |S.colOf| == |S.others| && stack0 <= stack && IsExactCover(S, G, stack[|stack0|..])
    && StackNamed(S, L, stack, |board0|) && board == Filled(S, L, stack, board0, |stack|)
  }

  /** The state in which `solve` calls itself. */
  lemma ChosenState(S: Shape, L: Labels, G0: Grid, m: Pool, G: Grid, n: nat, stack: seq<nat>, cells: nat)
    requires Good(S, m, G) && Remaining(S, G0, G, stack) && InGridRow(S, G, n)
    requires Named(S, L, m, cells) && StackNamed(S, L, stack, cells)
    ensures var p := RowCovered(S, m, G, n);
      && Good(S, p.0, p.1) && |p.1.heads| < |G.heads| && Named(S, L, p.0, cells)
      && Leaves(S, G, p.1, n) && Remaining(S, G0, p.1, stack + [n]) && StackNamed(S, L, stack + [n], cells)
  {
    RowCoverable(S, m, G, n);
    RowCoveredLeaves(S, m, G, n);
    RemainingStep(S, G0, G, RowCovered(S, m, G, n).1, stack, n);
    NamesKept(S, L, m, RowCovered(S, m, G, n).0, cells);
    StackNamedStep(S, L, m, cells, stack, n);
  }

  lemma SolvedStep(S: Shape, L: Labels, G: Grid, G2: Grid, n: nat, stack0: seq<nat>, stack: seq<nat>,
                   board0: seq<int>, board: seq<int>)
    requires Leaves(S, G, G2, n) && Solved(S, L, G2, stack0 + [n], stack, board0, board)
    ensures Solved(S, L, G, stack0, stack, board0, board)
  {
    var X := stack[|stack0| + 1..];
    ChosenRowExtends(S, G, G2, n, X);
    assert stack[|stack0|..] == [n] + X by {
      assert stack[|stack0|] == (stack0 + [n])[|stack0|];
    }
  }
}
