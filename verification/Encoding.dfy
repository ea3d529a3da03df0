/** The Sudoku puzzle as an exact-cover matrix: one column per empty cell, one per row-digit,
    column-digit and box-digit pair not yet on the board, one row per possible placement. */
module Encoding {
  import opened Matrix
  import opened Cover
  import opened ExactCover
  import opened Search
  import opened Sudoku

  const COLUMN_NAMES: nat := 400

  /** The name of the column of digit `v` in unit `u` of kind `k`: 100, 200 and 300 for rows, columns
      and boxes. */
  function Key(k: nat, u: nat, v: nat): (n: nat)
    requires k < 3 && u < 9 && v <= 9
    ensures 100 <= n < COLUMN_NAMES
  {
    100 * (k + 1) + u * 10 + v
  }

  lemma KeysDiffer(k: nat, u: nat, v: nat, k2: nat, u2: nat, v2: nat)
    requires k < 3 && u < 9 && v <= 9 && k2 < 3 && u2 < 9 && v2 <= 9
    ensures CELLS <= Key(k, u, v) < COLUMN_NAMES
    ensures Key(k, u, v) == Key(k2, u2, v2) ==> k == k2 && u == u2 && v == v2
  {
  }

  /** Digit `v` has still to be placed in unit `u` of kind `k`. */
  ghost predicate NeededUnit(g: seq<int>, k: nat, u: nat, v: nat)
    requires |g| == CELLS
  {
    k < 3 && u < 9 && 1 <= v <= 9 && !SeenIn(g, k, u, v)
  }

  /** Digit `v` can be placed in cell `i` as far as the givens go. */
  ghost predicate Allowed(g: seq<int>, i: nat, v: nat)
    requires |g| == CELLS
  {
    i < CELLS && g[i] == 0 && 1 <= v <= 9 && forall k {:trigger UnitOf(k, i)} :: 0 <= k < 3 ==>
        !SeenIn(g, k, UnitOf(k, i), v)
  }

  /** The four columns of the placement of `v` in cell `i`; `col` gives the header of each name. */
  ghost predicate ColumnOfPlacement(col: seq<nat>, i: nat, v: nat, c: nat)
    requires |col| == COLUMN_NAMES && i < CELLS && v <= 9
  {
    c == col[i] || c == col[Key(0, UnitOf(0, i), v)] || c == col[Key(1, UnitOf(1, i), v)]
    || c == col[Key(2, UnitOf(2, i), v)]
  }

  /** Row `x` stands for an allowed placement, and has its four columns. */
  ghost predicate Placement(S: Shape, L: Labels, col: seq<nat>, g: seq<int>, x: nat)
    requires |g| == CELLS && |col| == COLUMN_NAMES
  {
    && x < |S.colOf| == |S.others| == |L.cell| == |L.val|
    && Allowed(g, L.cell[x], L.val[x])
    && forall c {:trigger Touches(S, x, c)} :: Touches(S, x, c) <==> ColumnOfPlacement(col, L.cell[x], L.val[x], c)
  }

  ghost predicate CellHead(col: seq<nat>, g: seq<int>, c: nat, i: nat)
    requires |g| == CELLS && |col| == COLUMN_NAMES
  {
    i < CELLS && g[i] == 0 && col[i] == c
  }

  ghost predicate UnitHead(col: seq<nat>, g: seq<int>, c: nat, k: nat, u: nat, v: nat)
    requires |g| == CELLS && |col| == COLUMN_NAMES
  {
    NeededUnit(g, k, u, v) && col[Key(k, u, v)] == c
  }

  /** Every listed column is that of an empty cell or of a needed digit, and the converse; different
      names have different columns. */
  ghost predicate HeadsEncode(heads: seq<nat>, col: seq<nat>, g: seq<int>) {
    && |g| == CELLS && |col| == COLUMN_NAMES
    && (forall c {:trigger c in heads} :: c in heads ==>
          (exists i :: CellHead(col, g, c, i)) || (exists k, u, v :: UnitHead(col, g, c, k, u, v)))
    && (forall i {:trigger col[i]} :: 0 <= i < CELLS && g[i] == 0 ==> col[i] in heads)
    && (forall k, u, v {:trigger NeededUnit(g, k, u, v)} :: NeededUnit(g, k, u, v) ==> col[Key(k, u, v)] in heads)
    && (forall a, b {:trigger col[a], col[b]} ::
          0 <= a < b < COLUMN_NAMES && col[a] in heads && col[b] in heads ==> col[a] != col[b])
  }

  /** The grid is the matrix of puzzle `g`. */
  ghost predicate Encodes(S: Shape, L: Labels, G: Grid, col: seq<nat>, g: seq<int>) {
    && HeadsEncode(G.heads, col, g)
    && |S.colOf| == |S.others| == |L.cell| == |L.val|
    && (forall x {:trigger InGridRow(S, G, x)} :: InGridRow(S, G, x) ==> Placement(S, L, col, g, x))
    && (forall i, v {:trigger Allowed(g, i, v)} :: Allowed(g, i, v) ==> exists x :: RowFor(S, L, G, i, v, x))
  }

  ghost predicate RowFor(S: Shape, L: Labels, G: Grid, i: nat, v: nat, x: nat)
    requires |S.colOf| == |S.others| == |L.cell| == |L.val|
  {
    InGridRow(S, G, x) && L.cell[x] == i && L.val[x] == v
  }

  // ---- an exact cover is a completed board ----

  lemma CellsDiffer(S: Shape, L: Labels, G: Grid, col: seq<nat>, g: seq<int>, X: seq<nat>, a: nat, b: nat)
    requires Encodes(S, L, G, col, g) && IsExactCover(S, G, X) && a < b < |X|
    ensures X[a] < |L.cell| && X[b] < |L.cell| && L.cell[X[a]] != L.cell[X[b]]
  {
    assert InGridRow(S, G, X[a]) && InGridRow(S, G, X[b]);
    var c := col[L.cell[X[a]]];
    assert HitOnce(S, X, c) && Touches(S, X[a], c);
    assert Touches(S, X[b], col[L.cell[X[b]]]);
  }

  /** The row of the cover that fills an empty cell. */
  lemma CellIsFilled(S: Shape, L: Labels, G: Grid, col: seq<nat>, g: seq<int>, X: seq<nat>, i: nat)
      returns (j: nat)
    requires Encodes(S, L, G, col, g) && IsExactCover(S, G, X) && i < CELLS && g[i] == 0
    ensures j < |X| && X[j] < |L.cell| && L.cell[X[j]] == i
  {
    var c := col[i];
    assert Hit(S, X, c);
    j :| 0 <= j < |X| && X[j] < |S.colOf| && Touches(S, X[j], c);
    assert InGridRow(S, G, X[j]);
    SameColumn(S, L, G, col, g, X[j], i, c);
  }

  lemma SameColumn(S: Shape, L: Labels, G: Grid, col: seq<nat>, g: seq<int>, x: nat, a: nat, c: nat)
    requires Encodes(S, L, G, col, g) && InGridRow(S, G, x) && Placement(S, L, col, g, x)
    requires Touches(S, x, c) && a < COLUMN_NAMES && c == col[a] && c in G.heads
    ensures var i, v := L.cell[x], L.val[x];
      a == i || a == Key(0, UnitOf(0, i), v) || a == Key(1, UnitOf(1, i), v) || a == Key(2, UnitOf(2, i), v)
  {
    var i, v := L.cell[x], L.val[x];
    assert forall k :: 0 <= k < 3 ==> NeededUnit(g, k, UnitOf(k, i), v);
    var b := if c == col[i] then i else if c == col[Key(0, UnitOf(0, i), v)] then Key(0, UnitOf(0, i), v)
             else if c == col[Key(1, UnitOf(1, i), v)] then Key(1, UnitOf(1, i), v) else Key(2, UnitOf(2, i), v);
    assert col[b] == c && col[a] == c;
  }

  /** The row of the cover that places a needed digit. */
  lemma DigitIsPlaced(S: Shape, L: Labels, G: Grid, col: seq<nat>, g: seq<int>, X: seq<nat>, k: nat, u: nat, v: nat)
      returns (j: nat)
    requires Encodes(S, L, G, col, g) && IsExactCover(S, G, X) && NeededUnit(g, k, u, v)
    ensures j < |X| && X[j] < |L.cell| && L.val[X[j]] == v && L.cell[X[j]] < CELLS
    ensures g[L.cell[X[j]]] == 0 && UnitOf(k, L.cell[X[j]]) == u
  {
    var c := col[Key(k, u, v)];
    assert c in G.heads && Hit(S, X, c);
    j :| 0 <= j < |X| && X[j] < |S.colOf| && Touches(S, X[j], c);
    assert InGridRow(S, G, X[j]);
    var x := X[j];
    SameColumn(S, L, G, col, g, x, Key(k, u, v), c);
    var i, w := L.cell[x], L.val[x];
    var k2 := if Key(k, u, v) == Key(0, UnitOf(0, i), w) then 0
              else if Key(k, u, v) == Key(1, UnitOf(1, i), w) then 1 else 2;
    KeysDiffer(k, u, v, k2, UnitOf(k2, i), w);
  }

  lemma {:induction false} FilledAt(S: Shape, L: Labels, X: seq<nat>, g: seq<int>, k: nat)
    requires StackNamed(S, L, X, |g|) && k <= |X|
    requires forall a, b :: 0 <= a < b < |X| ==> L.cell[X[a]] != L.cell[X[b]]
    ensures forall j {:trigger X[j]} :: 0 <= j < k ==> Filled(S, L, X, g, k)[L.cell[X[j]]] == L.val[X[j]]
    ensures forall i {:trigger Filled(S, L, X, g, k)[i]} :: 0 <= i < |g| ==>
              Filled(S, L, X, g, k)[i] == g[i] || exists j :: 0 <= j < k && L.cell[X[j]] == i
  {
    if k > 0 {
      FilledAt(S, L, X, g, k - 1);
    }
  }

  /** The rows of a cover all name a cell. */
  lemma CoverIsNamed(S: Shape, L: Labels, G: Grid, col: seq<nat>, g: seq<int>, X: seq<nat>)
    requires Encodes(S, L, G, col, g) && IsExactCover(S, G, X)
    ensures StackNamed(S, L, X, CELLS)
  {
    forall i | 0 <= i < |X| ensures X[i] in S.nodes && X[i] < |L.cell| && L.cell[X[i]] < CELLS {
      assert InGridRow(S, G, X[i]) && Placement(S, L, col, g, X[i]);
    }
  }

  /** What writing a cover puts on the board: each row's digit in its cell, which was empty, and nothing else. */
  lemma CoverWrites(S: Shape, L: Labels, G: Grid, col: seq<nat>, g: seq<int>, X: seq<nat>)
    requires Encodes(S, L, G, col, g) && IsExactCover(S, G, X) && IsBoard(g) && StackNamed(S, L, X, CELLS)
    ensures var b := Filled(S, L, X, g, |X|);
      && (forall j {:trigger X[j]} :: 0 <= j < |X| ==>
            g[L.cell[X[j]]] == 0 && 1 <= L.val[X[j]] <= 9 && b[L.cell[X[j]]] == L.val[X[j]])
      && (forall i :: 0 <= i < CELLS && g[i] != 0 ==> b[i] == g[i])
  {
    var b := Filled(S, L, X, g, |X|);
    forall a, c | 0 <= a < c < |X| ensures L.cell[X[a]] != L.cell[X[c]] {
      CellsDiffer(S, L, G, col, g, X, a, c);
    }
    FilledAt(S, L, X, g, |X|);
    forall j {:trigger X[j]} | 0 <= j < |X|
      ensures g[L.cell[X[j]]] == 0 && 1 <= L.val[X[j]] <= 9 && b[L.cell[X[j]]] == L.val[X[j]]
    {
      assert InGridRow(S, G, X[j]);
    }
  }

  /** Soundness: writing an exact cover to the board completes it, each empty cell filled once. */
  lemma CoverGivesBoard(S: Shape, L: Labels, G: Grid, col: seq<nat>, g: seq<int>, X: seq<nat>)
    requires Encodes(S, L, G, col, g) && IsExactCover(S, G, X) && IsBoard(g)
    ensures StackNamed(S, L, X, CELLS) && Completion(g, Filled(S, L, X, g, |X|))
  {
    CoverIsNamed(S, L, G, col, g, X);
    var b := Filled(S, L, X, g, |X|);
    CoverWrites(S, L, G, col, g, X);
    forall i | 0 <= i < CELLS ensures 1 <= b[i] <= 9 && (g[i] != 0 ==> b[i] == g[i]) {
      if g[i] == 0 { var j := CellIsFilled(S, L, G, col, g, X, i); }
    }
    forall k, u, v | 0 <= k < 3 && 0 <= u < 9 && 1 <= v <= 9 ensures SeenIn(b, k, u, v) {
      CoverShows(S, L, G, col, g, X, b, k, u, v);
    }
    ValidIffAllSeen(b);
  }

  /** Every digit is on the board: given, or placed by a row of the cover. */
  lemma CoverShows(S: Shape, L: Labels, G: Grid, col: seq<nat>, g: seq<int>, X: seq<nat>, b: seq<int>, k: nat, u: nat,
                   v: nat)
    requires Encodes(S, L, G, col, g) && IsExactCover(S, G, X) && IsBoard(g) && k < 3 && u < 9 && 1 <= v <= 9
    requires |b| == CELLS && forall i :: 0 <= i < CELLS && g[i] != 0 ==> b[i] == g[i]
    requires forall j {:trigger X[j]} :: 0 <= j < |X| && X[j] < |L.cell| && L.cell[X[j]] < CELLS ==>
               b[L.cell[X[j]]] == L.val[X[j]]
    ensures SeenIn(b, k, u, v)
  {
    if SeenIn(g, k, u, v) {
      var i :| 0 <= i < CELLS && UnitOf(k, i) == u && g[i] == v;
      assert b[i] == v;
    } else {
      var j := DigitIsPlaced(S, L, G, col, g, X, k, u, v);
      assert b[L.cell[X[j]]] == v;
    }
  }

  // ---- a completed board is an exact cover ----

  ghost predicate RowOfBoard(S: Shape, L: Labels, G: Grid, b: seq<int>, n: nat, x: nat)
    requires |L.cell| == |L.val| && n <= |b|
  {
    InGridRow(S, G, x) && x < |L.cell| && L.cell[x] < n && L.val[x] == b[L.cell[x]]
  }

  ghost predicate CellListed(L: Labels, X: seq<nat>, i: nat) {
    exists j :: 0 <= j < |X| && X[j] < |L.cell| && L.cell[X[j]] == i
  }

  ghost predicate CellsOnce(L: Labels, X: seq<nat>) {
    forall j, q :: 0 <= j < q < |X| && X[j] < |L.cell| && X[q] < |L.cell| ==> L.cell[X[j]] != L.cell[X[q]]
  }

  /** `X` has one row for each of the first `n` cells that is empty in `g`, with the digit of `b`. */
  ghost predicate Picked(S: Shape, L: Labels, G: Grid, g: seq<int>, b: seq<int>, n: nat, X: seq<nat>) {
    && |g| == |b| == CELLS && |L.cell| == |L.val| && n <= CELLS && CellsOnce(L, X)
    && (forall j {:trigger X[j]} :: 0 <= j < |X| ==> RowOfBoard(S, L, G, b, n, X[j]))
    && (forall i {:trigger CellListed(L, X, i)} :: 0 <= i < n && g[i] == 0 ==> CellListed(L, X, i))
  }

  lemma {:induction false} PickRows(S: Shape, L: Labels, G: Grid, col: seq<nat>, g: seq<int>, b: seq<int>, n: nat)
      returns (X: seq<nat>)
    requires Encodes(S, L, G, col, g) && Completion(g, b) && n <= CELLS
    ensures Picked(S, L, G, g, b, n, X)
  {
    if n == 0 {
      X := [];
    } else {
      X := PickRows(S, L, G, col, g, b, n - 1);
      if g[n - 1] == 0 {
        CompletionAllows(g, b, n - 1);
        var x :| RowFor(S, L, G, n - 1, b[n - 1], x);
        PickedOneMore(S, L, G, g, b, n, X, x);
        X := X + [x];
      }
    }
  }

  lemma PickedOneMore(S: Shape, L: Labels, G: Grid, g: seq<int>, b: seq<int>, n: nat, Y: seq<nat>, x: nat)
    requires 0 < n <= CELLS && Picked(S, L, G, g, b, n - 1, Y) && RowOfBoard(S, L, G, b, n, x) && L.cell[x] == n - 1
    ensures Picked(S, L, G, g, b, n, Y + [x])
  {
    var X := Y + [x];
    forall i | 0 <= i < n && g[i] == 0 ensures CellListed(L, X, i) {
      if i < n - 1 {
        assert CellListed(L, Y, i);
        var j :| 0 <= j < |Y| && Y[j] < |L.cell| && L.cell[Y[j]] == i;
        assert X[j] == Y[j];
      } else {
        assert X[|Y|] == x;
      }
    }
  }

  lemma CompletionAllows(g: seq<int>, b: seq<int>, i: nat)
    requires Completion(g, b) && i < CELLS && g[i] == 0
    ensures Allowed(g, i, b[i])
  {
    ValidByUnits(b);
    forall k | 0 <= k < 3 ensures !SeenIn(g, k, UnitOf(k, i), b[i]) {
      forall j | 0 <= j < CELLS && UnitOf(k, j) == UnitOf(k, i) ensures g[j] != b[i] {
      }
    }
  }

  /** Completeness: every completion of the board is an exact cover of the matrix. */
  lemma BoardGivesCover(S: Shape, L: Labels, G: Grid, col: seq<nat>, g: seq<int>, b: seq<int>) returns (X: seq<nat>)
    requires Encodes(S, L, G, col, g) && Completion(g, b)
    ensures IsExactCover(S, G, X)
  {
    X := PickRows(S, L, G, col, g, b, CELLS);
    forall c | c in G.heads ensures Hit(S, X, c) && HitOnce(S, X, c) {
      if exists i :: CellHead(col, g, c, i) {
        var i :| CellHead(col, g, c, i);
        CellColumnOnce(S, L, G, col, g, b, X, i);
      } else {
        var k, u, v :| UnitHead(col, g, c, k, u, v);
        UnitColumnOnce(S, L, G, col, g, b, X, k, u, v);
      }
    }
  }

  lemma CellColumnOnce(S: Shape, L: Labels, G: Grid, col: seq<nat>, g: seq<int>, b: seq<int>, X: seq<nat>, i: nat)
    requires Encodes(S, L, G, col, g) && Completion(g, b) && Picked(S, L, G, g, b, CELLS, X) && i < CELLS && g[i] == 0
    ensures Hit(S, X, col[i]) && HitOnce(S, X, col[i])
  {
    var c := col[i];
    assert CellListed(L, X, i);
    var j :| 0 <= j < |X| && X[j] < |L.cell| && L.cell[X[j]] == i;
    assert RowOfBoard(S, L, G, b, CELLS, X[j]) && Touches(S, X[j], c);
    forall a | 0 <= a < |X| && X[a] < |S.colOf| && Touches(S, X[a], c) ensures L.cell[X[a]] == i {
      assert InGridRow(S, G, X[a]);
      SameColumn(S, L, G, col, g, X[a], i, c);
    }
  }

  lemma UnitColumnOnce(S: Shape, L: Labels, G: Grid, col: seq<nat>, g: seq<int>, b: seq<int>, X: seq<nat>,
                       k: nat, u: nat, v: nat)
    requires Encodes(S, L, G, col, g) && Completion(g, b) && Picked(S, L, G, g, b, CELLS, X) && NeededUnit(g, k, u, v)
    ensures Hit(S, X, col[Key(k, u, v)]) && HitOnce(S, X, col[Key(k, u, v)])
  {
    ValidIffAllSeen(b);
    assert SeenIn(b, k, u, v);
    var i :| 0 <= i < CELLS && UnitOf(k, i) == u && b[i] == v;
    assert g[i] == 0 && CellListed(L, X, i);
    var j :| 0 <= j < |X| && X[j] < |L.cell| && L.cell[X[j]] == i;
    assert RowOfBoard(S, L, G, b, CELLS, X[j]);
    UnitColumnOfCell(S, L, G, col, g, X[j], k, u, v, i);
    forall a | 0 <= a < |X| && X[a] < |S.colOf| && Touches(S, X[a], col[Key(k, u, v)])
      ensures X[a] < |L.cell| && L.cell[X[a]] == i
    {
      assert RowOfBoard(S, L, G, b, CELLS, X[a]);
      UnitColumnCell(S, L, G, col, g, b, X[a], k, u, v, i);
    }
    OnlyOneCell(S, L, X, col[Key(k, u, v)], i);
  }

  lemma OnlyOneCell(S: Shape, L: Labels, X: seq<nat>, c: nat, i: nat)
    requires |S.colOf| == |S.others| && CellsOnce(L, X)
    requires forall a {:trigger X[a]} :: 0 <= a < |X| && X[a] < |S.colOf| && Touches(S, X[a], c) ==>
               X[a] < |L.cell| && L.cell[X[a]] == i
    ensures HitOnce(S, X, c)
  {
  }

  lemma UnitColumnOfCell(S: Shape, L: Labels, G: Grid, col: seq<nat>, g: seq<int>, x: nat,
                         k: nat, u: nat, v: nat, i: nat)
    requires Encodes(S, L, G, col, g) && NeededUnit(g, k, u, v) && i < CELLS && UnitOf(k, i) == u
    requires InGridRow(S, G, x) && x < |L.cell| && L.cell[x] == i && L.val[x] == v
    ensures Touches(S, x, col[Key(k, u, v)])
  {
    assert Placement(S, L, col, g, x);
    assert ColumnOfPlacement(col, i, v, col[Key(k, u, v)]);
  }

  lemma UnitColumnCell(S: Shape, L: Labels, G: Grid, col: seq<nat>, g: seq<int>, b: seq<int>, x: nat,
                       k: nat, u: nat, v: nat, i: nat)
    requires Encodes(S, L, G, col, g) && Valid(b) && NeededUnit(g, k, u, v)
    requires InGridRow(S, G, x) && L.cell[x] < CELLS && L.val[x] == b[L.cell[x]]
    requires Touches(S, x, col[Key(k, u, v)]) && i < CELLS && UnitOf(k, i) == u && b[i] == v
    ensures L.cell[x] == i
  {
    SameColumn(S, L, G, col, g, x, Key(k, u, v), col[Key(k, u, v)]);
    ValidByUnits(b);
    var a, w := L.cell[x], L.val[x];
    var k2 := if Key(k, u, v) == Key(0, UnitOf(0, a), w) then 0
              else if Key(k, u, v) == Key(1, UnitOf(1, a), w) then 1 else 2;
    KeysDiffer(k, u, v, k2, UnitOf(k2, a), w);
    assert UnitOf(k, a) == UnitOf(k, i) && b[a] == b[i];
  }

  // ---- how many rows a cover has ----

  function EmptyCells(g: seq<int>): set<int> {
    set i | 0 <= i < |g| && g[i] == 0
  }

  /** A cover has exactly one row per empty cell. */
  lemma CoverSize(S: Shape, L: Labels, G: Grid, col: seq<nat>, g: seq<int>, X: seq<nat>)
    requires Encodes(S, L, G, col, g) && IsExactCover(S, G, X)
    ensures |X| == |EmptyCells(g)|
  {
    forall j | 0 <= j < |X| ensures X[j] < |L.cell| && L.cell[X[j]] < CELLS && g[L.cell[X[j]]] == 0 {
      assert InGridRow(S, G, X[j]);
    }
    var s: seq<int> := seq(|X|, j requires 0 <= j < |X| => L.cell[X[j]]);
    forall a, b | 0 <= a < b < |s| ensures s[a] != s[b] {
      CellsDiffer(S, L, G, col, g, X, a, b);
    }
    ElementsCount(s);
    forall i | i in EmptyCells(g) ensures i in s {
      var j := CellIsFilled(S, L, G, col, g, X, i);
      assert s[j] == i;
    }
    assert Elements(s) == EmptyCells(g);
  }
}
