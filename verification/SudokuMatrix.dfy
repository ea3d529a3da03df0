/** The invariants of the two halves of the constructor: first all columns, then all rows. */
module SudokuMatrix {
  import opened Rings
  import opened Torus
  import opened Matrix
  import opened Cover
  import opened ExactCover
  import opened Search
  import opened Sudoku
  import opened Encoding
  import opened Build

  /** 1 root, at most 81 + 3 * 81 columns, at most 729 rows of four nodes. */
  const MAX_NODES: nat := 1 + 81 * 4 + 9 * 9 * 9 * 4

  // ---- columns ----

  /** Exactly the columns called `names` exist; `col` finds each, and slots from `cur` on are unused. */
  ghost predicate ColumnsBuilt(S: Shape, m: Pool, G: Grid, col: seq<nat>, names: set<nat>, cur: nat) {
    && Linked(S, m, G) && S.nodes == {} && ROOT < cur
    && (forall c {:trigger c in S.cols} :: c in S.cols ==> c < cur)
    && |col| == COLUMN_NAMES
    && (forall a {:trigger col[a]} :: 0 <= a < COLUMN_NAMES ==>
          if a in names then col[a] in G.heads && col[a] < |m| && m[col[a]].name == a else col[a] == ROOT)
    && (forall c {:trigger c in G.heads} :: c in G.heads ==> c < |m| && m[c].name in names)
    && (forall a :: a in names ==> a < COLUMN_NAMES)
    && (forall c {:trigger c in G.heads} :: c in G.heads ==> c < |m| && ColumnNamed(m, col, c))
  }

  ghost predicate ColumnNamed(m: Pool, col: seq<nat>, c: nat)
    requires c < |m|
  {
    0 <= m[c].name < |col| && col[m[c].name] == c
  }

  lemma AppendColumnStep(S: Shape, m: Pool, G: Grid, col: seq<nat>, names: set<nat>, x: nat, n: nat)
    requires ColumnsBuilt(S, m, G, col, names, x) && x < |m| && n < COLUMN_NAMES && n !in names
    ensures ColumnsBuilt(WithColumn(S, x), PutLeft(Loner(m, x, x, n), ROOT, x), ColumnGrid(G, x),
                         col[n := x], names + {n}, x + 1)
  {
    AppendColumnKeepsLinked(S, m, G, x, n);
    var m2, G2, col2 := PutLeft(Loner(m, x, x, n), ROOT, x), ColumnGrid(G, x), col[n := x];
    assert forall k {:trigger m2[k]} :: 0 <= k < |m| ==> m2[k].name == if k == x then n else m[k].name;
    assert x in G2.heads by { assert G2.heads[|G.heads|] == x; }
    forall c | c in G2.heads ensures c < |m2| && m2[c].name in names + {n} && ColumnNamed(m2, col2, c) {
      if c != x {
        assert c in G.heads && c in S.cols && ColumnNamed(m, col, c);
      }
    }
  }

  /** The names the constructor adds before it reaches unit `i` and digit `v`. */
  ghost predicate KeyAdded(g: seq<int>, i: nat, v: nat, a: nat, k: nat, u: nat, w: nat)
    requires |g| == CELLS
  {
    NeededUnit(g, k, u, w) && a == Key(k, u, w) && (u < i || (u == i && w < v))
  }

  ghost predicate NameAdded(g: seq<int>, i: nat, v: nat, a: nat)
    requires |g| == CELLS
  {
    (a < CELLS && g[a] == 0) || exists k, u, w :: KeyAdded(g, i, v, a, k, u, w)
  }

  /** The keys of unit index `i` and digit `v`, for the first `j` kinds. */
  ghost function KeysOf(g: seq<int>, i: nat, v: nat, j: nat): set<nat>
    requires |g| == CELLS && i < 9 && 1 <= v <= 9 && j <= 3
  {
    if j == 0 then {} else KeysOf(g, i, v, j - 1) + if SeenIn(g, j - 1, i, v) then {} else {Key(j - 1, i, v)}
  }

  lemma {:induction false} KeysOfElements(g: seq<int>, i: nat, v: nat, j: nat)
    requires |g| == CELLS && i < 9 && 1 <= v <= 9 && j <= 3
    ensures forall a :: a in KeysOf(g, i, v, j) <==> exists k :: 0 <= k < j && !SeenIn(g, k, i, v) && a == Key(k, i, v)
  {
    if j > 0 {
      KeysOfElements(g, i, v, j - 1);
    }
  }

  /** `names` is what has been added before unit `i` and digit `v`. */
  ghost predicate NamesUpTo(g: seq<int>, i: nat, v: nat, names: set<nat>)
    requires |g| == CELLS
  {
    forall a {:trigger a in names} :: a in names <==> NameAdded(g, i, v, a)
  }

  lemma NamesStep(g: seq<int>, i: nat, v: nat, names: set<nat>)
    requires |g| == CELLS && i < 9 && 1 <= v <= 9 && NamesUpTo(g, i, v, names)
    ensures NamesUpTo(g, i, v + 1, names + KeysOf(g, i, v, 3))
  {
    KeysOfElements(g, i, v, 3);
    var v2 := v + 1;
    forall a ensures a in names + KeysOf(g, i, v, 3) <==> NameAdded(g, i, v2, a) {
      if a in KeysOf(g, i, v, 3) {
        var k :| 0 <= k < 3 && !SeenIn(g, k, i, v) && a == Key(k, i, v);
        assert KeyAdded(g, i, v2, a, k, i, v);
      }
      if NameAdded(g, i, v, a) { AddedLater(g, i, v, i, v2, a); }
      if exists k, u, w :: KeyAdded(g, i, v2, a, k, u, w) {
        var k, u, w :| KeyAdded(g, i, v2, a, k, u, w);
        if !(u == i && w == v) { assert KeyAdded(g, i, v, a, k, u, w); }
      }
    }
  }

  lemma AddedLater(g: seq<int>, i: nat, v: nat, i2: nat, v2: nat, a: nat)
    requires |g| == CELLS && NameAdded(g, i, v, a) && (i < i2 || (i == i2 && v <= v2))
    ensures NameAdded(g, i2, v2, a)
  {
    if exists k, u, w :: KeyAdded(g, i, v, a, k, u, w) {
      var k, u, w :| KeyAdded(g, i, v, a, k, u, w);
      assert KeyAdded(g, i2, v2, a, k, u, w);
    }
  }

  lemma NamesNextUnit(g: seq<int>, i: nat, names: set<nat>)
    requires |g| == CELLS && NamesUpTo(g, i, 10, names)
    ensures NamesUpTo(g, i + 1, 1, names)
  {
    var i2 := i + 1;
    forall a ensures NameAdded(g, i, 10, a) <==> NameAdded(g, i2, 1, a) {
      if NameAdded(g, i, 10, a) { AddedLater(g, i, 10, i2, 1, a); }
      if exists k, u, w :: KeyAdded(g, i2, 1, a, k, u, w) {
        var k, u, w :| KeyAdded(g, i2, 1, a, k, u, w);
        assert KeyAdded(g, i, 10, a, k, u, w);
      }
    }
  }

  /** A key is new when its turn comes. */
  lemma KeyIsNew(g: seq<int>, i: nat, v: nat, names: set<nat>, j: nat)
    requires |g| == CELLS && i < 9 && 1 <= v <= 9 && j < 3 && NamesUpTo(g, i, v, names)
    ensures Key(j, i, v) !in names + KeysOf(g, i, v, j)
  {
    var a := Key(j, i, v);
    forall k, u, w | KeyAdded(g, i, v, a, k, u, w) ensures false {
      KeysDiffer(j, i, v, k, u, w);
    }
    KeysOfElements(g, i, v, j);
    forall k | 0 <= k < j ensures Key(k, i, v) != a {
    }
  }

  /** When all columns are there, they are those of the puzzle. */
  lemma ColumnsEncode(S: Shape, m: Pool, G: Grid, col: seq<nat>, names: set<nat>, cur: nat, g: seq<int>)
    requires |g| == CELLS && ColumnsBuilt(S, m, G, col, names, cur) && NamesUpTo(g, 9, 1, names)
    ensures HeadsEncode(G.heads, col, g)
  {
    forall c | c in G.heads
      ensures (exists i :: CellHead(col, g, c, i)) || (exists k, u, v :: UnitHead(col, g, c, k, u, v))
    {
      assert ColumnNamed(m, col, c) && m[c].name in names;
      var a: nat := m[c].name;
      assert NameAdded(g, 9, 1, a);
      if a < CELLS && g[a] == 0 {
        assert CellHead(col, g, c, a);
      } else {
        var k, u, w :| KeyAdded(g, 9, 1, a, k, u, w);
        assert UnitHead(col, g, c, k, u, w);
      }
    }
    forall i | 0 <= i < CELLS && g[i] == 0 ensures col[i] in G.heads {
      assert i in names;
    }
    forall k, u, v | NeededUnit(g, k, u, v) ensures col[Key(k, u, v)] in G.heads {
      assert KeyAdded(g, 9, 1, Key(k, u, v), k, u, v);
      assert Key(k, u, v) in names;
    }
    forall a, b | 0 <= a < b < COLUMN_NAMES && col[a] in G.heads && col[b] in G.heads ensures col[a] != col[b] {
      RootNotListed(S, m, G);
    }
  }

  lemma RootNotListed(S: Shape, m: Pool, G: Grid)
    requires Linked(S, m, G)
    ensures ROOT !in G.heads
  {
  }

  // ---- rows ----

  ghost predicate PlacedBefore(i: nat, v: nat, j: nat, w: nat) {
    j < i || (j == i && w < v)
  }

  /** All columns and the rows of the placements before cell `i` and digit `v` exist. */
  ghost predicate RowsBuilt(S: Shape, L: Labels, m: Pool, G: Grid, col: seq<nat>, g: seq<int>, cur: nat, i: nat,
                            v: nat)
  {
    && Good(S, m, G) && ROOT < cur && HeadsEncode(G.heads, col, g) && Named(S, L, m, CELLS)
    && (forall x {:trigger x in S.cols} {:trigger x in S.nodes} :: x in S.cols || x in S.nodes ==> x < cur)
    && (forall x {:trigger Placement(S, L, col, g, x)} :: x in S.nodes ==> Placement(S, L, col, g, x))
    && (forall j, w {:trigger Allowed(g, j, w)} :: Allowed(g, j, w) && PlacedBefore(i, v, j, w) ==>
          exists x :: RowFor(S, L, G, j, w, x))
  }

  /** With the columns in place and no row yet. */
  lemma RowsStart(S: Shape, m: Pool, G: Grid, col: seq<nat>, names: set<nat>, cur: nat, g: seq<int>, L: Labels)
    requires |g| == CELLS && ColumnsBuilt(S, m, G, col, names, cur) && NamesUpTo(g, 9, 1, names)
    requires |L.cell| == |L.val| == |m|
    ensures RowsBuilt(S, L, m, G, col, g, cur, 0, 1)
  {
    ColumnsEncode(S, m, G, col, names, cur, g);
    forall c | c in G.heads && c < |G.lists| ensures |G.lists[c]| == 0 {
      assert c in S.cols && ColumnOk(S, m, G, c);
      assert forall q :: 0 <= q < |G.lists[c]| ==> G.lists[c][q] in S.nodes;
    }
  }

  function PlacementColumns(col: seq<nat>, i: nat, v: nat): (cs: seq<nat>)
    requires |col| == COLUMN_NAMES && i < CELLS && v <= 9
    ensures |cs| == 4 && forall c :: c in cs <==> ColumnOfPlacement(col, i, v, c)
  {
    [col[i], col[Key(0, UnitOf(0, i), v)], col[Key(1, UnitOf(1, i), v)], col[Key(2, UnitOf(2, i), v)]]
  }

  function PlacementNames(i: nat, v: nat): (ns: seq<int>)
    requires i < CELLS && v <= 9
    ensures |ns| == 4
  {
    [i, Key(0, UnitOf(0, i), v), Key(1, UnitOf(1, i), v), Key(2, UnitOf(2, i), v)]
  }

  lemma PlacementNamesFacts(i: nat, v: nat)
    requires i < CELLS && v <= 9
    ensures var ns := PlacementNames(i, v);
      && ns[0] == i < CELL_NAMES <= ns[1] < ns[2] < ns[3] < COLUMN_NAMES
      && ns[1] % 10 == v && ns[2] % 10 == v && ns[3] % 10 == v
  {
    KeyFacts(0, UnitOf(0, i), v);
    KeyFacts(1, UnitOf(1, i), v);
    KeyFacts(2, UnitOf(2, i), v);
  }

  lemma KeyFacts(k: nat, u: nat, v: nat)
    requires k < 3 && u < 9 && v <= 9
    ensures 100 * (k + 1) <= Key(k, u, v) < 100 * (k + 2) && Key(k, u, v) % 10 == v
  {
  }

  /** The four columns of an allowed placement are listed, and different. */
  lemma PlacementColumnsListed(heads: seq<nat>, col: seq<nat>, g: seq<int>, i: nat, v: nat)
    requires HeadsEncode(heads, col, g) && Allowed(g, i, v)
    ensures var cs := PlacementColumns(col, i, v); Distinct(cs) && forall q :: 0 <= q < 4 ==> cs[q] in heads
  {
    var cs, ns := PlacementColumns(col, i, v), PlacementNames(i, v);
    PlacementNamesFacts(i, v);
    forall k | 0 <= k < 3 ensures col[Key(k, UnitOf(k, i), v)] in heads {
      assert NeededUnit(g, k, UnitOf(k, i), v);
    }
    NamesDistinct(heads, col, ns[0], ns[1], ns[2], ns[3]);
  }

  lemma NamesDistinct(heads: seq<nat>, col: seq<nat>, a: nat, b: nat, c: nat, d: nat)
    requires a < b < c < d < |col| == COLUMN_NAMES
    requires col[a] in heads && col[b] in heads && col[c] in heads && col[d] in heads
    requires forall a, b {:trigger col[a], col[b]} ::
               0 <= a < b < COLUMN_NAMES && col[a] in heads && col[b] in heads ==> col[a] != col[b]
    ensures Distinct([col[a], col[b], col[c], col[d]])
  {
  }

  ghost function LabelRow(L: Labels, a: nat, i: nat, v: nat): (L2: Labels)
    requires |L.cell| == |L.val|
    ensures |L2.cell| == |L2.val| == |L.cell|
    ensures forall k {:trigger L2.cell[k]} :: 0 <= k < |L.cell| ==> L2.cell[k] == if InRow(a, k) then i else L.cell[k]
    ensures forall k {:trigger L2.val[k]} :: 0 <= k < |L.val| ==> L2.val[k] == if InRow(a, k) then v else L.val[k]
  {
    Labels(seq(|L.cell|, k requires 0 <= k < |L.cell| => if InRow(a, k) then i else L.cell[k]),
           seq(|L.val|, k requires 0 <= k < |L.val| => if InRow(a, k) then v else L.val[k]))
  }

  ghost predicate RowStep(S: Shape, L: Labels, m: Pool, G: Grid, col: seq<nat>, g: seq<int>, a: nat, i: nat, v: nat) {
    RowsBuilt(S, L, m, G, col, g, a, i, v) && Allowed(g, i, v) && a + 4 <= |m|
  }

  lemma RowStepRoom(S: Shape, L: Labels, m: Pool, G: Grid, col: seq<nat>, g: seq<int>, a: nat, i: nat, v: nat)
    requires RowStep(S, L, m, G, col, g, a, i, v)
    ensures RowRoom(S, m, G, a, PlacementColumns(col, i, v), PlacementNames(i, v))
  {
    PlacementColumnsListed(G.heads, col, g, i, v);
    var cs := PlacementColumns(col, i, v);
    forall q | 0 <= q < 4 ensures cs[q] < a {
      assert cs[q] in G.heads && cs[q] in S.cols;
    }
  }

  /** The names of the four slots at `a` spell cell `i` and digit `v`. */
  ghost predicate RowSpelt(m2: Pool, a: nat, i: nat, v: nat) {
    && i < CELLS && v <= 9 && a + 4 <= |m2|
    && m2[a].name == PlacementNames(i, v)[0] && m2[a + 1].name == PlacementNames(i, v)[1]
    && m2[a + 2].name == PlacementNames(i, v)[2] && m2[a + 3].name == PlacementNames(i, v)[3]
  }

  lemma SpeltIsNamed(S2: Shape, L2: Labels, m2: Pool, a: nat, i: nat, v: nat, n: nat)
    requires |m2| == |S2.others| == |L2.cell| == |L2.val| && RowSpelt(m2, a, i, v) && InRow(a, n)
    requires L2.cell[n] == i && L2.val[n] == v && S2.others[n] == RowOthers(a, n)
    ensures RowNamed(S2, L2, m2, CELLS, n)
  {
    PlacementNamesFacts(i, v);
    forall k: nat | InRow(a, k) ensures NodeNamed(L2, m2[k].name, n) {
      assert k == a || k == a + 1 || k == a + 2 || k == a + 3;
    }
    if n == a {
      assert a + 1 in S2.others[n];
    } else {
      assert a in S2.others[n];
    }
  }

  lemma NewRowNamed(S: Shape, L: Labels, m: Pool, G: Grid, col: seq<nat>, g: seq<int>, a: nat, i: nat, v: nat, n: nat)
    requires RowStep(S, L, m, G, col, g, a, i, v) && InRow(a, n)
    ensures var cs, ns := PlacementColumns(col, i, v), PlacementNames(i, v);
      SpreadOk(m, a, cs, ns) && RowNamed(RowShape(S, a, cs), LabelRow(L, a, i, v), RowPool(m, a, cs, ns), CELLS, n)
  {
    RowStepRoom(S, L, m, G, col, g, a, i, v);
    var cs, ns := PlacementColumns(col, i, v), PlacementNames(i, v);
    RowPoolLinks(m, a, cs, ns);
    SpeltIsNamed(RowShape(S, a, cs), LabelRow(L, a, i, v), RowPool(m, a, cs, ns), a, i, v, n);
  }

  lemma NamedFrame(S: Shape, L: Labels, m: Pool, S2: Shape, L2: Labels, m2: Pool, n: nat)
    requires |m| == |S.others| == |L.cell| == |L.val| == |m2| == |S2.others| == |L2.cell| == |L2.val|
    requires RowNamed(S, L, m, CELLS, n) && S2.others[n] == S.others[n]
    requires L2.cell[n] == L.cell[n] && L2.val[n] == L.val[n] && m2[n].name == m[n].name
    requires forall k {:trigger k in S.others[n]} :: k in S.others[n] ==> k < |m| && m2[k].name == m[k].name
    ensures RowNamed(S2, L2, m2, CELLS, n)
  {
  }

  lemma OldRowNamed(S: Shape, L: Labels, m: Pool, G: Grid, col: seq<nat>, g: seq<int>, a: nat, i: nat, v: nat, n: nat)
    requires RowStep(S, L, m, G, col, g, a, i, v) && n in S.nodes
    ensures var cs, ns := PlacementColumns(col, i, v), PlacementNames(i, v);
      SpreadOk(m, a, cs, ns) && RowNamed(RowShape(S, a, cs), LabelRow(L, a, i, v), RowPool(m, a, cs, ns), CELLS, n)
  {
    RowStepRoom(S, L, m, G, col, g, a, i, v);
    var cs, ns := PlacementColumns(col, i, v), PlacementNames(i, v);
    RowPoolLinks(m, a, cs, ns);
    var S2, m2 := RowShape(S, a, cs), RowPool(m, a, cs, ns);
    assert RowNamed(S, L, m, CELLS, n) && NodeOk(S, n);
    forall k | k in S.others[n] ensures k < |m| && m2[k].name == m[k].name {
      assert Mates(S, n, k);
    }
    NamedFrame(S, L, m, S2, LabelRow(L, a, i, v), m2, n);
  }

  lemma NewRowPlacement(S: Shape, L: Labels, m: Pool, G: Grid, col: seq<nat>, g: seq<int>, a: nat, i: nat, v: nat,
                        n: nat)
    requires RowStep(S, L, m, G, col, g, a, i, v) && InRow(a, n)
    ensures Placement(RowShape(S, a, PlacementColumns(col, i, v)), LabelRow(L, a, i, v), col, g, n)
  {
    var cs := PlacementColumns(col, i, v);
    var S2 := RowShape(S, a, cs);
    forall c ensures Touches(S2, n, c) <==> c in cs {
      if c in cs {
        var q :| 0 <= q < 4 && cs[q] == c;
        assert InRow(a, a + q) && S2.colOf[a + q] == c;
        assert a + q == n || a + q in S2.others[n];
      }
    }
  }

  lemma OldRowPlacement(S: Shape, L: Labels, m: Pool, G: Grid, col: seq<nat>, g: seq<int>, a: nat, i: nat, v: nat,
                        n: nat)
    requires RowStep(S, L, m, G, col, g, a, i, v) && n in S.nodes
    ensures Placement(RowShape(S, a, PlacementColumns(col, i, v)), LabelRow(L, a, i, v), col, g, n)
  {
    var cs := PlacementColumns(col, i, v);
    var S2 := RowShape(S, a, cs);
    assert Placement(S, L, col, g, n) && NodeOk(S, n);
    forall k | k in S.others[n] ensures k < a {
      assert Mates(S, n, k);
    }
    forall c ensures Touches(S2, n, c) <==> Touches(S, n, c) {
    }
  }

  /** Adding the row of an allowed placement. */
  lemma AddPlacement(S: Shape, L: Labels, m: Pool, G: Grid, col: seq<nat>, g: seq<int>, a: nat, i: nat, v: nat)
    requires RowStep(S, L, m, G, col, g, a, i, v)
    ensures var cs, ns := PlacementColumns(col, i, v), PlacementNames(i, v);
      && SpreadOk(m, a, cs, ns) && (forall q :: 0 <= q < 4 ==> cs[q] < |G.lists|)
      && RowsBuilt(RowShape(S, a, cs), LabelRow(L, a, i, v), RowPool(m, a, cs, ns), SpreadGrid(G, a, cs, 4),
                   col, g, a + 4, i, v + 1)
  {
    RowStepRoom(S, L, m, G, col, g, a, i, v);
    var cs, ns := PlacementColumns(col, i, v), PlacementNames(i, v);
    AddRowKeepsGood(S, m, G, a, cs, ns);
    var S2, L2, m2, G2 := RowShape(S, a, cs), LabelRow(L, a, i, v), RowPool(m, a, cs, ns), SpreadGrid(G, a, cs, 4);
    forall n | n in S2.nodes ensures RowNamed(S2, L2, m2, CELLS, n) && Placement(S2, L2, col, g, n) {
      if InRow(a, n) {
        NewRowNamed(S, L, m, G, col, g, a, i, v, n);
        NewRowPlacement(S, L, m, G, col, g, a, i, v, n);
      } else {
        OldRowNamed(S, L, m, G, col, g, a, i, v, n);
        OldRowPlacement(S, L, m, G, col, g, a, i, v, n);
      }
    }
    forall j, w | Allowed(g, j, w) && PlacedBefore(i, v + 1, j, w) ensures exists x :: RowFor(S2, L2, G2, j, w, x) {
      RowStaysPresent(S, L, m, G, col, g, a, i, v, j, w);
    }
  }

  lemma RowStaysPresent(S: Shape, L: Labels, m: Pool, G: Grid, col: seq<nat>, g: seq<int>, a: nat, i: nat, v: nat,
                        j: nat, w: nat)
    requires RowStep(S, L, m, G, col, g, a, i, v) && Allowed(g, j, w) && PlacedBefore(i, v + 1, j, w)
    ensures forall q :: 0 <= q < 4 ==> PlacementColumns(col, i, v)[q] < |G.lists|
    ensures var cs := PlacementColumns(col, i, v);
      exists x :: RowFor(RowShape(S, a, cs), LabelRow(L, a, i, v), SpreadGrid(G, a, cs, 4), j, w, x)
  {
    RowStepRoom(S, L, m, G, col, g, a, i, v);
    var cs := PlacementColumns(col, i, v);
    forall q | 0 <= q < 4 ensures cs[q] in G.heads && cs[q] < |G.lists| {
    }
    if j == i && w == v {
      NewRowPresent(S, L, G, a, cs, i, v);
    } else {
      assert PlacedBefore(i, v, j, w);
      var x :| RowFor(S, L, G, j, w, x);
      OldRowPresent(S, L, G, a, cs, i, v, j, w, x);
    }
  }

  lemma NewRowPresent(S: Shape, L: Labels, G: Grid, a: nat, cs: seq<nat>, i: nat, v: nat)
    requires |S.colOf| == |S.others| == |L.cell| == |L.val| == |G.lists| && |cs| == 4 && a + 4 <= |S.colOf|
    requires forall q :: 0 <= q < 4 ==> cs[q] in G.heads && cs[q] < |G.lists|
    ensures RowFor(RowShape(S, a, cs), LabelRow(L, a, i, v), SpreadGrid(G, a, cs, 4), i, v, a)
  {
    var S2, G2 := RowShape(S, a, cs), SpreadGrid(G, a, cs, 4);
    assert InRow(a, a) && S2.colOf[a] == cs[0] && a in G2.lists[cs[0]];
  }

  lemma OldRowPresent(S: Shape, L: Labels, G: Grid, a: nat, cs: seq<nat>, i: nat, v: nat, j: nat, w: nat, x: nat)
    requires |S.colOf| == |S.others| == |L.cell| == |L.val| == |G.lists| && |cs| == 4 && a + 4 <= |S.colOf|
    requires forall q :: 0 <= q < 4 ==> cs[q] < |G.lists|
    requires RowFor(S, L, G, j, w, x) && x < a
    ensures RowFor(RowShape(S, a, cs), LabelRow(L, a, i, v), SpreadGrid(G, a, cs, 4), j, w, x)
  {
    assert x in SpreadGrid(G, a, cs, 4).lists[S.colOf[x]];
  }

  /** A placement the givens rule out needs no row. */
  lemma SkipPlacement(S: Shape, L: Labels, m: Pool, G: Grid, col: seq<nat>, g: seq<int>, cur: nat, i: nat, v: nat)
    requires RowsBuilt(S, L, m, G, col, g, cur, i, v) && !Allowed(g, i, v)
    ensures RowsBuilt(S, L, m, G, col, g, cur, i, v + 1)
  {
    var v2 := v + 1;
    forall j, w | Allowed(g, j, w) && PlacedBefore(i, v2, j, w) ensures exists x :: RowFor(S, L, G, j, w, x) {
      assert PlacedBefore(i, v, j, w);
    }
  }

  lemma NextCell(S: Shape, L: Labels, m: Pool, G: Grid, col: seq<nat>, g: seq<int>, cur: nat, i: nat)
    requires |g| == CELLS && i < CELLS
    requires if g[i] == 0 then RowsBuilt(S, L, m, G, col, g, cur, i, 10) else RowsBuilt(S, L, m, G, col, g, cur, i, 1)
    ensures RowsBuilt(S, L, m, G, col, g, cur, i + 1, 1)
  {
    var i2 := i + 1;
    forall j, w | Allowed(g, j, w) && PlacedBefore(i2, 1, j, w) ensures exists x :: RowFor(S, L, G, j, w, x) {
      assert PlacedBefore(i, 10, j, w);
      assert g[i] != 0 ==> PlacedBefore(i, 1, j, w);
    }
  }

  lemma AllRowsEncode(S: Shape, L: Labels, m: Pool, G: Grid, col: seq<nat>, g: seq<int>, cur: nat)
    requires RowsBuilt(S, L, m, G, col, g, cur, CELLS, 1)
    ensures Encodes(S, L, G, col, g)
  {
    forall j, w | Allowed(g, j, w) ensures exists x :: RowFor(S, L, G, j, w, x) {
      assert PlacedBefore(CELLS, 1, j, w);
    }
    forall x | InGridRow(S, G, x) ensures Placement(S, L, col, g, x) {
      assert x in S.nodes;
    }
  }

  // ---- the tables of givens ----

  ghost predicate SeenBefore(b: seq<int>, k: nat, u: nat, v: int, n: nat)
    requires |b| == CELLS && k < 3 && n <= CELLS
  {
    exists i :: 0 <= i < n && UnitOf(k, i) == u && b[i] == v
  }

  lemma SeenStep(b: seq<int>, n: nat)
    requires |b| == CELLS && n < CELLS
    ensures forall k, u, v {:trigger SeenBefore(b, k, u, v, n)} {:trigger SeenBefore(b, k, u, v, n + 1)} ::
        0 <= k < 3 ==>
              (SeenBefore(b, k, u, v, n + 1) <==> SeenBefore(b, k, u, v, n) || (u == UnitOf(k, n) && v == b[n]))
  {
  }

  /** The table `t` marks the digits seen in each unit of kind `k`. */
  ghost predicate Marks(t: array2<bool>, b: seq<int>, k: nat)
    requires |b| == CELLS && k < 3
    reads t
  {
    && t.Length0 == CELLS && t.Length1 == 10
    && forall u, v {:trigger t[u, v]} :: 0 <= u < 9 && 0 <= v <= 9 ==> (t[u, v] <==> SeenIn(b, k, u, v))
  }

  lemma EmptyMatrix(S: Shape, m: Pool, G: Grid, col: seq<nat>)
    requires |m| == |S.colOf| == |S.others| == |G.lists| && m != [] && S.cols == S.nodes == {} && G.heads == []
    requires forall i {:trigger m[i]} :: 0 <= i < |m| ==> m[i] == Node(0, 0, 0, 0, 0, 0, 0)
    requires |col| == COLUMN_NAMES && forall a :: 0 <= a < COLUMN_NAMES ==> col[a] == ROOT
    ensures ColumnsBuilt(S, m, G, col, {}, 1)
  {
  }

  lemma CellNamesFirst(g: seq<int>, names: set<nat>)
    requires |g| == CELLS && forall a :: a in names <==> 0 <= a < CELLS && g[a] == 0
    ensures NamesUpTo(g, 0, 1, names)
  {
    forall a, k, u, w ensures !KeyAdded(g, 0, 1, a, k, u, w) {
    }
  }

  lemma AllowedIffUnmarked(rows: array2<bool>, cols: array2<bool>, boxes: array2<bool>, g: seq<int>, i: nat, v: nat)
    requires |g| == CELLS && i < CELLS && g[i] == 0 && 1 <= v <= 9
    requires Marks(rows, g, 0) && Marks(cols, g, 1) && Marks(boxes, g, 2)
    ensures Allowed(g, i, v) <==>
            !(rows[UnitOf(0, i), v] || cols[UnitOf(1, i), v] || boxes[UnitOf(2, i), v])
  {
    if Allowed(g, i, v) {
      assert !SeenIn(g, 0, UnitOf(0, i), v) && !SeenIn(g, 1, UnitOf(1, i), v) && !SeenIn(g, 2, UnitOf(2, i), v);
    }
  }
}
