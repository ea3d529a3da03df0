/** The dancing-links solver over its pool of nodes. */
module DancingLinks {
  import opened Rings
  import opened Torus
  import opened Matrix
  import opened Cover
  import opened ExactCover
  import opened Walk
  import opened Search
  import opened Sudoku
  import opened Encoding
  import opened Build
  import opened SudokuMatrix

  class Dance {
    const nodes: array<Node>
    const inout: array<int>
    const columns: array<nat>
    var stack: seq<nat>
    var cur: nat

    // The matrix the pool holds once it is built.
    ghost var S: Shape
    ghost var L: Labels
    ghost var G: Grid

    // ---- building the matrix ----

    /** The matrix of the puzzle on the board. */
    constructor (board: array<int>)
      requires IsBoard(board[..])
      ensures inout == board && stack == [] && fresh(nodes) && fresh(columns) && cur <= nodes.Length
      ensures Good(S, nodes[..], G) && Named(S, L, nodes[..], CELLS) && Encodes(S, L, G, columns[..], board[..])
    {
      inout := board;
      stack := [];
      nodes := new Node[MAX_NODES](_ => Node(0, 0, 0, 0, 0, 0, 0));
      columns := new nat[COLUMN_NAMES](_ => 0);
      cur := 1;
      S := Shape({}, {}, seq(MAX_NODES, _ => 0), seq(MAX_NODES, _ => []));
      L := Labels(seq(MAX_NODES, _ => 0), seq(MAX_NODES, _ => 0));
      G := Grid([], seq(MAX_NODES, _ => []));
      new;
      EmptyMatrix(S, nodes[..], G, columns[..]);
      BuildMatrix();
    }

    /** The body of the constructor once the root exists. */
    method BuildMatrix()
      requires columns.Length == COLUMN_NAMES && nodes.Length == MAX_NODES && IsBoard(inout[..])
      requires ColumnsBuilt(S, nodes[..], G, columns[..], {}, cur) && cur == 1
      requires |L.cell| == |L.val| == nodes.Length
      modifies nodes, columns, this`cur, this`S, this`L, this`G
      ensures Good(S, nodes[..], G) && Named(S, L, nodes[..], CELLS) && Encodes(S, L, G, columns[..], inout[..])
      ensures cur <= nodes.Length
    {
      var rows, cols, boxes := ReadGivens();
      ghost var names := AddColumns(rows, cols, boxes);
      RowsStart(S, nodes[..], G, columns[..], names, cur, inout[..], L);
      AddRows(rows, cols, boxes);
      AllRowsEncode(S, L, nodes[..], G, columns[..], inout[..], cur);
    }

    /** Which digits the givens already use in each row, column and box. */
    method ReadGivens() returns (rows: array2<bool>, cols: array2<bool>, boxes: array2<bool>)
      requires IsBoard(inout[..])
      ensures Marks(rows, inout[..], 0) && Marks(cols, inout[..], 1) && Marks(boxes, inout[..], 2)
      ensures fresh(rows) && fresh(cols) && fresh(boxes)
    {
      rows := new bool[CELLS, 10]((_, _) => false);
      cols := new bool[CELLS, 10]((_, _) => false);
      boxes := new bool[CELLS, 10]((_, _) => false);
      for i := 0 to CELLS
        invariant rows != cols && rows != boxes && cols != boxes
        invariant rows.Length0 == cols.Length0 == boxes.Length0 == CELLS
        invariant rows.Length1 == cols.Length1 == boxes.Length1 == 10
        invariant forall u, v :: 0 <= u < 9 && 0 <= v <= 9 ==> (rows[u, v] <==> SeenBefore(inout[..], 0, u, v, i))
        invariant forall u, v :: 0 <= u < 9 && 0 <= v <= 9 ==> (cols[u, v] <==> SeenBefore(inout[..], 1, u, v, i))
        invariant forall u, v :: 0 <= u < 9 && 0 <= v <= 9 ==> (boxes[u, v] <==> SeenBefore(inout[..], 2, u, v, i))
      {
        var row, col := i / 9, i % 9;
        var box := row / 3 * 3 + col / 3;
        var val := inout[i];
        SeenStep(inout[..], i);
        rows[row, val] := true;
        cols[col, val] := true;
        boxes[box, val] := true;
      }
    }

    method PutLeftNode(old': nat, nnew: nat)
      requires InRange(nodes[..]) && old' < nodes.Length && nnew < nodes.Length && old' != nnew
      modifies nodes
      ensures nodes[..] == PutLeft(old(nodes[..]), old', nnew)
    {
      ghost var m := nodes[..];
      nodes[nnew] := nodes[nnew].(left := nodes[old'].left);
      assert nodes[..] == SetLeft(m, nnew, m[old'].left);
      ghost var m1 := nodes[..];
      nodes[nnew] := nodes[nnew].(right := old');
      assert nodes[..] == SetRight(m1, nnew, old');
      ghost var m2 := nodes[..];
      nodes[nodes[old'].left] := nodes[nodes[old'].left].(right := nnew);
      assert nodes[..] == SetRight(m2, m2[old'].left, nnew);
      ghost var m3 := nodes[..];
      nodes[old'] := nodes[old'].(left := nnew);
      assert nodes[..] == SetLeft(m3, old', nnew);
    }

    method PutUpNode(old': nat, nnew: nat)
      requires InRange(nodes[..]) && old' < nodes.Length && nnew < nodes.Length && old' != nnew
      requires nodes[nnew].col == old'
      modifies nodes
      ensures nodes[..] == PutUp(old(nodes[..]), old', nnew)
    {
      ghost var m := nodes[..];
      nodes[nnew] := nodes[nnew].(up := nodes[old'].up);
      assert nodes[..] == SetUp(m, nnew, m[old'].up);
      ghost var m1 := nodes[..];
      nodes[nnew] := nodes[nnew].(down := old');
      assert nodes[..] == SetDown(m1, nnew, old');
      ghost var m2 := nodes[..];
      nodes[nodes[old'].up] := nodes[nodes[old'].up].(down := nnew);
      assert nodes[..] == SetDown(m2, m2[old'].up, nnew);
      ghost var m3 := nodes[..];
      nodes[old'] := nodes[old'].(up := nnew);
      assert nodes[..] == SetUp(m3, old', nnew);
      ghost var m4 := nodes[..];
      nodes[old'] := nodes[old'].(size := nodes[old'].size + 1);
      assert nodes[..] == AddSize(m4, old', 1);
      nodes[nnew] := nodes[nnew].(col := old');
    }

    /** A new header named `n` at the end of the header list. */
    method AppendColumn(n: nat, ghost names: set<nat>)
      requires columns.Length == COLUMN_NAMES && ColumnsBuilt(S, nodes[..], G, columns[..], names, cur)
      requires cur < nodes.Length && n < COLUMN_NAMES && n !in names
      modifies nodes, columns, this`cur, this`S, this`G
      ensures ColumnsBuilt(S, nodes[..], G, columns[..], names + {n}, cur) && cur == old(cur) + 1
    {
      assert columns[n] == ROOT;
      AppendColumnStep(S, nodes[..], G, columns[..], names, cur, n);
      var c := cur;
      cur := cur + 1;
      ghost var m := nodes[..];
      nodes[c] := Node(c, c, c, c, c, n, 0);
      assert nodes[..] == Loner(m, c, c, n);
      PutLeftNode(ROOT, c);
      columns[n] := c;
      S, G := WithColumn(S, c), ColumnGrid(G, c);
    }

    /** The columns of the empty cells, then those of the digits that each unit still needs. */
    method AddColumns(rows: array2<bool>, cols: array2<bool>, boxes: array2<bool>) returns (ghost names: set<nat>)
      requires columns.Length == COLUMN_NAMES && nodes.Length == MAX_NODES && IsBoard(inout[..])
      requires Marks(rows, inout[..], 0) && Marks(cols, inout[..], 1) && Marks(boxes, inout[..], 2)
      requires ColumnsBuilt(S, nodes[..], G, columns[..], {}, cur) && cur == 1
      modifies nodes, columns, this`cur, this`S, this`G
      ensures ColumnsBuilt(S, nodes[..], G, columns[..], names, cur) && NamesUpTo(inout[..], 9, 1, names)
      ensures cur <= 1 + 81 * 4
    {
      names := {};
      ghost var g := inout[..];
      for i := 0 to CELLS
        invariant ColumnsBuilt(S, nodes[..], G, columns[..], names, cur) && cur <= 1 + i
        invariant forall a :: a in names <==> 0 <= a < i && g[a] == 0
      {
        if inout[i] == 0 {
          AppendColumn(i, names);
          names := names + {i};
        }
      }
      CellNamesFirst(g, names);
      for i := 0 to 9
        invariant ColumnsBuilt(S, nodes[..], G, columns[..], names, cur) && cur <= 82 + 27 * i
        invariant NamesUpTo(g, i, 1, names)
      {
        for v := 1 to 10
          invariant ColumnsBuilt(S, nodes[..], G, columns[..], names, cur) && cur <= 82 + 27 * i + 3 * (v - 1)
          invariant NamesUpTo(g, i, v, names)
        {
          names := AddUnitColumns(i, v, rows, cols, boxes, names);
        }
        NamesNextUnit(g, i, names);
      }
    }

    /** The body of the second loop: up to three columns for unit index `i` and digit `v`. */
    method AddUnitColumns(i: nat, v: nat, rows: array2<bool>, cols: array2<bool>, boxes: array2<bool>,
                          ghost names: set<nat>)
        returns (ghost names2: set<nat>)
      requires columns.Length == COLUMN_NAMES && IsBoard(inout[..]) && i < 9 && 1 <= v <= 9
      requires Marks(rows, inout[..], 0) && Marks(cols, inout[..], 1) && Marks(boxes, inout[..], 2)
      requires ColumnsBuilt(S, nodes[..], G, columns[..], names, cur) && cur + 3 <= nodes.Length
      requires NamesUpTo(inout[..], i, v, names)
      modifies nodes, columns, this`cur, this`S, this`G
      ensures ColumnsBuilt(S, nodes[..], G, columns[..], names2, cur) && cur <= old(cur) + 3
      ensures NamesUpTo(inout[..], i, v + 1, names2)
    {
      assert names + {} == names;
      ghost var g := inout[..];
      names2 := AppendUnlessSeen(0, i, v, 100 + i * 10 + v, rows[i, v], names, {});
      names2 := AppendUnlessSeen(1, i, v, 200 + i * 10 + v, cols[i, v], names, names2);
      names2 := AppendUnlessSeen(2, i, v, 300 + i * 10 + v, boxes[i, v], names, names2);
      NamesStep(g, i, v, names);
      names2 := names + names2;
    }

    method AppendUnlessSeen(k: nat, i: nat, v: nat, n: nat, seen: bool, ghost names: set<nat>, ghost added: set<nat>)
        returns (ghost added2: set<nat>)
      requires columns.Length == COLUMN_NAMES && IsBoard(inout[..]) && k < 3 && i < 9 && 1 <= v <= 9
      requires n == Key(k, i, v) && (seen <==> SeenIn(inout[..], k, i, v))
      requires NamesUpTo(inout[..], i, v, names) && added == KeysOf(inout[..], i, v, k)
      requires ColumnsBuilt(S, nodes[..], G, columns[..], names + added, cur) && cur < nodes.Length
      modifies nodes, columns, this`cur, this`S, this`G
      ensures added2 == KeysOf(inout[..], i, v, k + 1) && cur <= old(cur) + 1
      ensures ColumnsBuilt(S, nodes[..], G, columns[..], names + added2, cur)
    {
      KeyIsNew(inout[..], i, v, names, k);
      if !seen {
        AppendColumn(n, names + added);
        assert names + added + {n} == names + (added + {n});
      }
      added2 := added + if seen then {} else {n};
      assert seen ==> added2 == added;
    }

    /** One node at the bottom of the column called `col`. */
    method NewRowNode(col: nat) returns (r: nat)
      requires columns.Length == COLUMN_NAMES && col < COLUMN_NAMES && InRange(nodes[..])
      requires columns[col] < cur < nodes.Length
      modifies nodes, this`cur
      ensures r == old(cur) && cur == r + 1 && r != columns[col]
      ensures nodes[..] == NewRow(old(nodes[..]), r, columns[col], col)
    {
      r := cur;
      cur := cur + 1;
      NewRowIs(nodes[..], r, columns[col], col);
      ghost var m := nodes[..];
      nodes[r] := Node(r, r, r, r, columns[col], col, 0);
      assert nodes[..] == Loner(m, r, columns[col], col);
      PutUpNode(columns[col], r);
    }

    ghost predicate Called(w: nat, x: nat, y: nat, z: nat, cs: seq<nat>, ns: seq<int>)
      reads columns
    {
      && columns.Length == COLUMN_NAMES && w < COLUMN_NAMES && x < COLUMN_NAMES && y < COLUMN_NAMES && z < COLUMN_NAMES
      && |cs| == |ns| == 4 && ns[0] == w && ns[1] == x && ns[2] == y && ns[3] == z
      && cs[0] == columns[w] && cs[1] == columns[x] && cs[2] == columns[y] && cs[3] == columns[z]
    }

    /** The next of the new nodes that began at slot `a` of the pool `m`. */
    method NextRowNode(col: nat, ghost m: Pool, ghost a: nat, ghost cs: seq<nat>, ghost ns: seq<int>) returns (r: nat)
      requires columns.Length == COLUMN_NAMES && col < COLUMN_NAMES && SpreadOk(m, a, cs, ns) && a <= cur < a + |cs|
      requires cs[cur - a] == columns[col] && ns[cur - a] == col && nodes[..] == SpreadPool(m, a, cs, ns, cur - a)
      modifies nodes, this`cur
      ensures r == old(cur) && cur == r + 1 && nodes[..] == SpreadPool(m, a, cs, ns, cur - a)
    {
      SpreadStep(m, a, cs, ns, cur - a);
      r := NewRowNode(col);
    }

    /** Four new nodes, one in each of the columns called `w`, `x`, `y` and `z`. */
    method NewRowNodes(w: nat, x: nat, y: nat, z: nat, ghost cs: seq<nat>, ghost ns: seq<int>)
        returns (n0: nat, nr: nat, nc: nat, nb: nat)
      requires Called(w, x, y, z, cs, ns) && SpreadOk(nodes[..], cur, cs, ns)
      modifies nodes, this`cur
      ensures n0 == old(cur) && nr == n0 + 1 && nc == n0 + 2 && nb == n0 + 3 && cur == n0 + 4
      ensures nodes[..] == SpreadPool(old(nodes[..]), n0, cs, ns, |cs|)
    {
      ghost var m, a := nodes[..], cur;
      SpreadNone(m, a, cs, ns, 0);
      n0 := NextRowNode(w, m, a, cs, ns);
      nr := NextRowNode(x, m, a, cs, ns);
      nc := NextRowNode(y, m, a, cs, ns);
      nb := NextRowNode(z, m, a, cs, ns);
    }

    /** The four nodes, joined to a row. */
    method AddRowNodes(w: nat, x: nat, y: nat, z: nat, ghost cs: seq<nat>, ghost ns: seq<int>)
      requires Called(w, x, y, z, cs, ns) && SpreadOk(nodes[..], cur, cs, ns)
      modifies nodes, this`cur
      ensures nodes[..] == RowPool(old(nodes[..]), old(cur), cs, ns)
      ensures cur == old(cur) + 4
    {
      RowPoolIs(nodes[..], cur, cs, ns);
      var n0, nr, nc, nb := NewRowNodes(w, x, y, z, cs, ns);
      JoinRow(n0, nr, nc, nb);
    }

    method JoinRow(n0: nat, nr: nat, nc: nat, nb: nat)
      requires InRange(nodes[..]) && n0 + 3 < nodes.Length && nr == n0 + 1 && nc == n0 + 2 && nb == n0 + 3
      modifies nodes
      ensures nodes[..] == Joined(old(nodes[..]), n0)
    {
      PutLeftNode(n0, nr);
      PutLeftNode(n0, nc);
      PutLeftNode(n0, nb);
    }

    /** The row of the placement of `v` in cell `i`. */
    method AddRow(i: nat, row: nat, col: nat, box: nat, v: nat)
      requires columns.Length == COLUMN_NAMES && inout.Length == CELLS
      requires RowStep(S, L, nodes[..], G, columns[..], inout[..], cur, i, v)
      requires row == UnitOf(0, i) && col == UnitOf(1, i) && box == UnitOf(2, i)
      modifies nodes, this`cur, this`S, this`L, this`G
      ensures RowsBuilt(S, L, nodes[..], G, columns[..], inout[..], cur, i, v + 1) && cur == old(cur) + 4
    {
      ghost var a, cs := cur, PlacementColumns(columns[..], i, v);
      AddPlacement(S, L, nodes[..], G, columns[..], inout[..], a, i, v);
      AddRowNodes(i, 100 + row * 10 + v, 200 + col * 10 + v, 300 + box * 10 + v, cs, PlacementNames(i, v));
      S, L, G := RowShape(S, a, cs), LabelRow(L, a, i, v), SpreadGrid(G, a, cs, 4);
    }

    /** A row for every placement the givens allow. */
    method AddRows(rows: array2<bool>, cols: array2<bool>, boxes: array2<bool>)
      requires columns.Length == COLUMN_NAMES && nodes.Length == MAX_NODES && IsBoard(inout[..])
      requires Marks(rows, inout[..], 0) && Marks(cols, inout[..], 1) && Marks(boxes, inout[..], 2)
      requires RowsBuilt(S, L, nodes[..], G, columns[..], inout[..], cur, 0, 1) && cur <= 1 + 81 * 4
      modifies nodes, this`cur, this`S, this`L, this`G
      ensures RowsBuilt(S, L, nodes[..], G, columns[..], inout[..], cur, CELLS, 1) && cur <= nodes.Length
    {
      ghost var g := inout[..];
      for i := 0 to CELLS
        invariant RowsBuilt(S, L, nodes[..], G, columns[..], g, cur, i, 1) && cur <= 325 + 36 * i
      {
        if inout[i] == 0 {
          AddCellRows(i, rows, cols, boxes);
        }
        NextCell(S, L, nodes[..], G, columns[..], g, cur, i);
      }
    }

    /** The rows of the placements in the empty cell `i`. */
    method AddCellRows(i: nat, rows: array2<bool>, cols: array2<bool>, boxes: array2<bool>)
      requires columns.Length == COLUMN_NAMES && IsBoard(inout[..]) && i < CELLS && inout[i] == 0
      requires Marks(rows, inout[..], 0) && Marks(cols, inout[..], 1) && Marks(boxes, inout[..], 2)
      requires RowsBuilt(S, L, nodes[..], G, columns[..], inout[..], cur, i, 1) && cur + 36 <= nodes.Length
      modifies nodes, this`cur, this`S, this`L, this`G
      ensures RowsBuilt(S, L, nodes[..], G, columns[..], inout[..], cur, i, 10) && cur <= old(cur) + 36
    {
      ghost var g := inout[..];
      var row, col := i / 9, i % 9;
      var box := row / 3 * 3 + col / 3;
      for v := 1 to 10
        invariant RowsBuilt(S, L, nodes[..], G, columns[..], g, cur, i, v) && cur <= old(cur) + 4 * (v - 1)
      {
        AllowedIffUnmarked(rows, cols, boxes, g, i, v);
        if !(rows[row, v] || cols[col, v] || boxes[box, v]) {
          AddRow(i, row, col, box, v);
        } else {
          SkipPlacement(S, L, nodes[..], G, columns[..], g, cur, i, v);
        }
      }
    }

    // ---- link surgery ----

    method UnlinkNode(j: nat)
      requires InRange(nodes[..]) && j < nodes.Length
      modifies nodes
      ensures nodes[..] == Unlink(old(nodes[..]), j)
    {
      UnlinkIs(nodes[..], j);
      ghost var m := nodes[..];
      nodes[nodes[j].down] := nodes[nodes[j].down].(up := nodes[j].up);
      assert nodes[..] == SetUp(m, m[j].down, m[j].up);
      ghost var m1 := nodes[..];
      nodes[nodes[j].up] := nodes[nodes[j].up].(down := nodes[j].down);
      assert nodes[..] == SetDown(m1, m1[j].up, m1[j].down);
      ghost var m2 := nodes[..];
      nodes[nodes[j].col] := nodes[nodes[j].col].(size := nodes[nodes[j].col].size - 1);
      assert nodes[..] == AddSize(m2, m2[j].col, -1);
    }

    method RelinkNode(j: nat)
      requires InRange(nodes[..]) && j < nodes.Length
      modifies nodes
      ensures nodes[..] == Relink(old(nodes[..]), j)
    {
      RelinkIs(nodes[..], j);
      ghost var m := nodes[..];
      nodes[nodes[j].col] := nodes[nodes[j].col].(size := nodes[nodes[j].col].size + 1);
      assert nodes[..] == AddSize(m, m[j].col, 1);
      ghost var m1 := nodes[..];
      nodes[nodes[j].down] := nodes[nodes[j].down].(up := j);
      assert nodes[..] == SetUp(m1, m1[j].down, j);
      ghost var m2 := nodes[..];
      nodes[nodes[j].up] := nodes[nodes[j].up].(down := j);
      assert nodes[..] == SetDown(m2, m2[j].up, j);
    }

    method UnlinkHeader(c: nat)
      requires InRange(nodes[..]) && c < nodes.Length
      modifies nodes
      ensures nodes[..] == UnlinkHead(old(nodes[..]), c)
    {
      UnlinkHeadIs(nodes[..], c);
      ghost var m := nodes[..];
      nodes[nodes[c].right] := nodes[nodes[c].right].(left := nodes[c].left);
      assert nodes[..] == SetLeft(m, m[c].right, m[c].left);
      ghost var m1 := nodes[..];
      nodes[nodes[c].left] := nodes[nodes[c].left].(right := nodes[c].right);
      assert nodes[..] == SetRight(m1, m1[c].left, m1[c].right);
    }

    method RelinkHeader(c: nat)
      requires InRange(nodes[..]) && c < nodes.Length
      modifies nodes
      ensures nodes[..] == RelinkHead(old(nodes[..]), c)
    {
      RelinkHeadIs(nodes[..], c);
      ghost var m := nodes[..];
      nodes[nodes[c].right] := nodes[nodes[c].right].(left := c);
      assert nodes[..] == SetLeft(m, m[c].right, c);
      ghost var m1 := nodes[..];
      nodes[nodes[c].left] := nodes[nodes[c].left].(right := c);
      assert nodes[..] == SetRight(m1, m1[c].left, c);
    }

    /** The inner loop of `cover`: unlink the other nodes of one row, left to right. */
    method UnlinkRow(row: nat, ghost os: seq<nat>)
      requires InRange(nodes[..]) && Slots(nodes[..], os)
      requires IsRing(Rights(nodes[..]), Lefts(nodes[..]), row, os)
      modifies nodes
      ensures nodes[..] == UnlinkRun(old(nodes[..]), os, |os|)
    {
      ghost var m := nodes[..];
      ghost var p := 0;
      var j := nodes[row].right;
      while j != row
        invariant p <= |os| && j == if p < |os| then os[p] else row
        invariant nodes[..] == UnlinkRun(m, os, p)
        decreases |os| - p
      {
        RingReads(Rights(m), Lefts(m), row, os, p);
        UnlinkNode(j);
        p := p + 1;
        assert nodes[..] == UnlinkRun(m, os, p);
        assert nodes[..][j].right == Rights(nodes[..])[j];
        j := nodes[j].right;
      }
    }

    /** The inner loop of `uncover`: relink the other nodes of one row, right to left. */
    method RelinkRow(row: nat, ghost m: Pool, ghost os: seq<nat>)
      requires InRange(m) && Slots(m, os) && Undoable(m, os) && IsRing(Rights(m), Lefts(m), row, os)
      requires nodes[..] == UnlinkRun(m, os, |os|)
      modifies nodes
      ensures nodes[..] == m
    {
      ghost var p := |os|;
      assert nodes[..][row].left == Lefts(nodes[..])[row] == Lefts(m)[row];
      var j := nodes[row].left;
      while j != row
        invariant 0 <= p <= |os| && j == if p > 0 then os[p - 1] else row
        invariant nodes[..] == UnlinkRun(m, os, p)
        decreases p
      {
        RingReads(Rights(m), Lefts(m), row, os, p - 1);
        RelinkNode(j);
        p := p - 1;
        assert nodes[..] == UnlinkRun(m, os, p);
        assert nodes[..][j].left == Lefts(nodes[..])[j];
        j := nodes[j].left;
      }
    }

    /** The outer loop of `cover`. */
    method UnlinkRows(c: nat, ghost S: Shape, ghost rows: seq<nat>)
      requires Walkable(S, nodes[..], rows, c)
      modifies nodes
      ensures nodes[..] == RowsOut(S, old(nodes[..]), rows, |rows|)
    {
      ghost var m, i := nodes[..], 0;
      assert ColumnReads(RowsOut(S, m, rows, 0), rows, c, 0);
      var row := nodes[c].down;
      while row != c
        invariant i <= |rows| && row == if i < |rows| then rows[i] else c
        invariant i < |rows| ==> row != c
        invariant nodes[..] == RowsOut(S, m, rows, i)
        decreases |rows| - i
      {
        row := UnlinkNext(row, c, S, m, rows, i);
        i := i + 1;
      }
    }

    /** The body of that loop: take the `i`-th row out and go on down the column. */
    method UnlinkNext(row: nat, c: nat, ghost S: Shape, ghost m: Pool, ghost rows: seq<nat>, ghost i: nat)
        returns (next: nat)
      requires Walkable(S, m, rows, c) && i < |rows| && row == rows[i] && nodes[..] == RowsOut(S, m, rows, i)
      modifies nodes
      ensures nodes[..] == RowsOut(S, m, rows, i + 1) && next == After(c, rows, i)
      ensures i + 1 < |rows| ==> rows[i + 1] != c
    {
      assert RowReads(S, RowsOut(S, m, rows, i), rows[i]);
      UnlinkRow(row, S.others[row]);
      assert ColumnReads(RowsOut(S, m, rows, i + 1), rows, c, i + 1);
      next := nodes[row].down;
    }

    /** The outer loop of `uncover`. */
    method RelinkRows(c: nat, ghost S: Shape, ghost m: Pool, ghost rows: seq<nat>)
      requires Walkable(S, m, rows, c) && nodes[..] == RowsOut(S, m, rows, |rows|)
      modifies nodes
      ensures nodes[..] == m
    {
      ghost var i := |rows|;
      assert ColumnReads(RowsOut(S, m, rows, i), rows, c, i);
      var row := nodes[c].up;
      while row != c
        invariant 0 <= i <= |rows| && row == if i > 0 then rows[i - 1] else c
        invariant i > 0 ==> row != c
        invariant nodes[..] == RowsOut(S, m, rows, i)
        decreases i
      {
        assert RowReads(S, RowsOut(S, m, rows, i - 1), rows[i - 1]);
        RelinkRow(row, RowsOut(S, m, rows, i - 1), S.others[row]);
        i := i - 1;
        assert ColumnReads(RowsOut(S, m, rows, i), rows, c, i);
        row := nodes[row].up;
      }
    }

    /** Take column `c` and every row listed in it out of the matrix. */
    method CoverColumn(c: nat, ghost S: Shape, ghost G: Grid)
      requires Good(S, nodes[..], G) && c in G.heads
      modifies nodes
      ensures nodes[..] == Covered(S, old(nodes[..]), G, c)
    {
      CoverWalkable(S, nodes[..], G, c);
      UnlinkHeader(c);
      UnlinkRows(c, S, G.lists[c]);
    }

    /** Put column `c` and its rows back: `m` is the pool before the cover that is being undone. */
    method UncoverColumn(c: nat, ghost S: Shape, ghost m: Pool, ghost G: Grid)
      requires Good(S, m, G) && c in G.heads
      requires nodes[..] == Covered(S, m, G, c)
      modifies nodes
      ensures nodes[..] == m
    {
      CoverWalkable(S, m, G, c);
      RelinkRows(c, S, UnlinkHead(m, c), G.lists[c]);
      HeadUndo(S, m, G, c);
      RelinkHeader(c);
    }

    // ---- the search ----

    /** A listed column with fewest rows, except that the scan stops at the first of size 0 or 1. */
    method GetMinColumn(ghost S: Shape, ghost G: Grid) returns (c: nat)
      requires Linked(S, nodes[..], G) && G.heads != []
      ensures c in G.heads && c < nodes.Length
      ensures nodes[c].size <= 1 || forall d :: d in G.heads ==> d < nodes.Length && nodes[c].size <= nodes[d].size
    {
      ghost var m, i := nodes[..], 1;
      RingReads(Rights(m), Lefts(m), ROOT, G.heads, 0);
      c := nodes[ROOT].right;
      var minSize := nodes[c].size;
      if minSize > 1 {
        var cc := nodes[c].right;
        while cc != ROOT
          invariant 1 <= i <= |G.heads| && cc == (if i < |G.heads| then G.heads[i] else ROOT)
          invariant i < |G.heads| ==> cc != ROOT
          invariant c in G.heads && c < nodes.Length && minSize == nodes[c].size
          invariant minSize > 1 && forall q :: 0 <= q < i ==> G.heads[q] < |m| && minSize <= m[G.heads[q]].size
          decreases |G.heads| - i
        {
          RingReads(Rights(m), Lefts(m), ROOT, G.heads, i);
          if minSize > nodes[cc].size {
            c := cc;
            minSize := nodes[cc].size;
            if minSize <= 1 { break; }
          }
          if i + 1 < |G.heads| { RingReads(Rights(m), Lefts(m), ROOT, G.heads, i + 1); }
          i := i + 1;
          cc := nodes[cc].right;
        }
      }
    }

    /** Cover the column of the `k`-th node of the row being chosen. */
    method CoverStep(c: nat, ghost row: nat, ghost S: Shape, ghost ps: seq<(Pool, Grid)>, ghost k: nat)
      requires IsPlan(S, ps, row) && 0 < k < |ps| - 1 && nodes[..] == ps[k].0
      requires StepAt(S, ps, row, k) && c == RowColumn(S, row, k)
      modifies nodes
      ensures nodes[..] == ps[k + 1].0
    {
      CoverColumn(c, S, ps[k].1);
    }

    method UncoverStep(c: nat, ghost row: nat, ghost S: Shape, ghost ps: seq<(Pool, Grid)>, ghost k: nat)
      requires IsPlan(S, ps, row) && 0 < k < |ps| - 1 && nodes[..] == ps[k + 1].0
      requires StepAt(S, ps, row, k) && c == RowColumn(S, row, k)
      modifies nodes
      ensures nodes[..] == ps[k].0
    {
      UncoverColumn(c, S, ps[k].0, ps[k].1);
    }

    /** Cover the other columns of the chosen row, left to right. */
    method CoverOthers(row: nat, ghost S: Shape, ghost ps: seq<(Pool, Grid)>)
      requires IsPlan(S, ps, row) && nodes[..] == ps[1].0
      modifies nodes
      ensures nodes[..] == ps[|ps| - 1].0
    {
      ghost var os, k := S.others[row], 1;
      PlanReads(S, ps, row, 1);
      var j := nodes[row].right;
      while j != row
        invariant 1 <= k <= |os| + 1 && j == (if k <= |os| then os[k - 1] else row)
        invariant nodes[..] == ps[k].0
        decreases |os| - k
      {
        j := CoverOne(j, row, S, ps, k);
        k := k + 1;
      }
      PlanReads(S, ps, row, k);
    }

    /** Cover the column of the `k`-th node of the row, at `j`, and go on to the right. */
    method CoverOne(j: nat, row: nat, ghost S: Shape, ghost ps: seq<(Pool, Grid)>, ghost k: nat) returns (next: nat)
      requires IsPlan(S, ps, row) && 0 < k < |ps| - 1 && nodes[..] == ps[k].0 && j == S.others[row][k - 1]
      modifies nodes
      ensures nodes[..] == ps[k + 1].0 && next == After(row, S.others[row], k - 1)
    {
      PlanReads(S, ps, row, k);
      CoverStep(nodes[j].col, row, S, ps, k);
      PlanReads(S, ps, row, k + 1);
      next := nodes[j].right;
    }

    /** Uncover them again, right to left. */
    method UncoverOthers(row: nat, ghost S: Shape, ghost ps: seq<(Pool, Grid)>)
      requires IsPlan(S, ps, row) && nodes[..] == ps[|ps| - 1].0
      modifies nodes
      ensures nodes[..] == ps[1].0
    {
      ghost var os := S.others[row];
      ghost var k := |os| + 1;
      PlanReads(S, ps, row, k);
      var j := nodes[row].left;
      while j != row
        invariant 1 <= k <= |os| + 1 && j == (if k > 1 then os[k - 2] else row)
        invariant nodes[..] == ps[k].0
        decreases k
      {
        j := UncoverOne(j, row, S, ps, k - 1);
        k := k - 1;
      }
      PlanReads(S, ps, row, k);
    }

    /** Uncover the column of the `k`-th node of the row, at `j`, and go on to the left. */
    method UncoverOne(j: nat, row: nat, ghost S: Shape, ghost ps: seq<(Pool, Grid)>, ghost k: nat) returns (next: nat)
      requires IsPlan(S, ps, row) && 0 < k < |ps| - 1 && nodes[..] == ps[k + 1].0 && j == S.others[row][k - 1]
      modifies nodes
      ensures nodes[..] == ps[k].0 && next == Before(row, S.others[row], k - 1)
    {
      PlanReads(S, ps, row, k + 1);
      PlanReads(S, ps, row, k);
      UncoverStep(nodes[j].col, row, S, ps, k);
      next := nodes[j].left;
    }

    /** Walk a stacked row until both its cell and its digit have been seen. */
    method ReadRow(start: nat, ghost S: Shape, ghost L: Labels) returns (cell: int, val: int)
      requires Named(S, L, nodes[..], inout.Length) && start in S.nodes && start < |S.others| == |S.colOf|
      requires RowWalk(S, nodes[..], start)
      ensures cell == L.cell[start] && val == L.val[start]
    {
      ghost var m, p := nodes[..], 0;
      assert RowNamed(S, L, m, inout.Length, start);
      cell, val := -1, -1;
      var n := start;
      while cell == -1 || val == -1
        invariant ReadSoFar(S, L, m, start, p, n, cell, val)
        decreases |S.others[start]| + 1 - p
      {
        ReadStep(S, L, m, inout.Length, start, p, n, cell, val);
        if nodes[n].name < CELL_NAMES {
          cell := nodes[n].name;
        } else {
          val := nodes[n].name % 10;
        }
        n := nodes[n].right;
        p := p + 1;
      }
    }

    /** Write every stacked row to the board. */
    method WriteBoard(ghost S: Shape, ghost L: Labels, ghost G: Grid)
      requires Good(S, nodes[..], G) && Named(S, L, nodes[..], inout.Length)
      requires StackNamed(S, L, stack, inout.Length)
      modifies inout
      ensures inout[..] == Filled(S, L, stack, old(inout[..]), |stack|)
    {
      ghost var board := inout[..];
      for i := 0 to |stack|
        invariant inout[..] == Filled(S, L, stack, board, i)
      {
        GoodRowWalk(S, nodes[..], G, stack[i]);
        var cell, val := ReadRow(stack[i], S, L);
        inout[cell] := val;
      }
    }

    /** Algorithm X on what the stacked rows leave.  True: the rows pushed are an exact cover of it, and
        the board holds all stacked rows.  False: there is no exact cover, and nothing has changed. */
    method Solve(ghost S: Shape, ghost L: Labels, ghost G0: Grid, ghost G: Grid) returns (r: bool)
      requires Good(S, nodes[..], G) && Remaining(S, G0, G, stack)
      requires Named(S, L, nodes[..], inout.Length) && StackNamed(S, L, stack, inout.Length)
      modifies this`stack, nodes, inout
      decreases |G.heads|, 2
      ensures r ==> Solved(S, L, G, old(stack), stack, old(inout[..]), inout[..])
      ensures !r ==> nodes[..] == old(nodes[..]) && stack == old(stack) && inout[..] == old(inout[..])
      ensures !r ==> forall X :: !IsExactCover(S, G, X)
    {
      ghost var m := nodes[..];
      if nodes[ROOT].left == ROOT {
        NoHeads(S, m, G);
        EmptyCover(S, G);
        WriteBoard(S, L, G);
        assert stack[|stack|..] == [];
        return true;
      }
      SomeHead(S, m, G);
      var col := GetMinColumn(S, G);
      CoverColumn(col, S, G);
      r := TryRows(col, S, L, G0, m, G);
      if !r {
        UncoverColumn(col, S, m, G);
        NoRowNoCover(S, m, G, col);
      }
    }

    /** The row loop of `solve`: try the rows of the covered column, top to bottom. */
    method TryRows(col: nat, ghost S: Shape, ghost L: Labels, ghost G0: Grid, ghost m: Pool, ghost G: Grid)
        returns (r: bool)
      requires Good(S, m, G) && Remaining(S, G0, G, stack) && col in G.heads
      requires nodes[..] == Covered(S, m, G, col)
      requires Named(S, L, m, inout.Length) && StackNamed(S, L, stack, inout.Length)
      modifies this`stack, nodes, inout
      decreases |G.heads|, 1
      ensures r ==> Solved(S, L, G, old(stack), stack, old(inout[..]), inout[..])
      ensures !r ==> nodes[..] == old(nodes[..]) && stack == old(stack) && inout[..] == old(inout[..])
      ensures col < |G.lists| && (!r ==> AllFail(S, m, G, G.lists[col], |G.lists[col]|))
    {
      CoveredColumnReads(S, m, G, col);
      ghost var m1, rows, i := nodes[..], G.lists[col], 0;
      var row := nodes[col].down;
      while row != col
        invariant i <= |rows| && row == (if i < |rows| then rows[i] else col) && (i < |rows| ==> row != col)
        invariant nodes[..] == m1 == old(nodes[..]) && stack == old(stack) && inout[..] == old(inout[..])
        invariant AllFail(S, m, G, rows, i)
        decreases |rows| - i
      {
        assert row == rows[i] && m1[rows[i]].down == After(col, rows, i);
        assert i + 1 < |rows| ==> rows[i + 1] != col;
        r := TryRow(row, S, L, G0, m, G);
        if r { return true; }
        OneMoreFails(S, m, G, rows, i);
        i := i + 1;
        row := nodes[row].down;
      }
      return false;
    }

    /** Push a row of the covered column and cover its other columns. */
    method ChooseRow(row: nat, ghost S: Shape, ghost m: Pool, ghost G: Grid) returns (ghost ps: seq<(Pool, Grid)>)
      requires Good(S, m, G) && InGridRow(S, G, row) && nodes[..] == Covered(S, m, G, S.colOf[row])
      modifies this`stack, nodes
      ensures stack == old(stack) + [row] && nodes[..] == RowCovered(S, m, G, row).0
      ensures IsPlan(S, ps, row) && ps[1].0 == old(nodes[..]) && nodes[..] == ps[|ps| - 1].0
    {
      ps := MakePlan(S, m, G, row);
      assert StepAt(S, ps, row, 0);
      stack := stack + [row];
      CoverOthers(row, S, ps);
    }

    /** Pop the row and uncover its other columns. */
    method UndoRow(row: nat, ghost S: Shape, ghost ps: seq<(Pool, Grid)>, ghost before: seq<nat>)
      requires IsPlan(S, ps, row) && nodes[..] == ps[|ps| - 1].0 && stack == before + [row]
      modifies this`stack, nodes
      ensures nodes[..] == ps[1].0 && stack == before
    {
      stack := stack[..|stack| - 1];
      UncoverOthers(row, S, ps);
    }

    /** The body of the row loop of `solve`: choose one row of the covered column, search, and undo. */
    method TryRow(row: nat, ghost S: Shape, ghost L: Labels, ghost G0: Grid, ghost m: Pool, ghost G: Grid)
        returns (r: bool)
      requires Good(S, m, G) && Remaining(S, G0, G, stack) && InGridRow(S, G, row)
      requires nodes[..] == Covered(S, m, G, S.colOf[row])
      requires Named(S, L, m, inout.Length) && StackNamed(S, L, stack, inout.Length)
      modifies this`stack, nodes, inout
      decreases |G.heads|, 0
      ensures r ==> Solved(S, L, G, old(stack), stack, old(inout[..]), inout[..])
      ensures !r ==> nodes[..] == old(nodes[..]) && stack == old(stack) && inout[..] == old(inout[..])
      ensures !r ==> RowFails(S, m, G, row)
    {
      ghost var stack0, board := stack, inout[..];
      ghost var G2 := RowCovered(S, m, G, row).1;
      ghost var ps := ChooseRow(row, S, m, G);
      ChosenState(S, L, G0, m, G, row, stack0, inout.Length);
      r := Solve(S, L, G0, G2);
      if r {
        SolvedStep(S, L, G, G2, row, stack0, stack, board, inout[..]);
        return true;
      }
      UndoRow(row, S, ps, stack0);
      return false;
    }
  }
}
