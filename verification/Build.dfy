/** Building the matrix: how appending a column and adding a row extend the grid the pool holds. */
module Build {
  import opened Rings
  import opened Torus
  import opened Matrix
  import opened Sealing
  import opened Cover

  // ---- the writes of put_left, put_up, new_column and new_row ----

  /** The horizontal links after `put_left(h, x)`. */
  ghost predicate PutLeftLinks(m: Pool, m2: Pool, h: nat, x: nat)
    requires InRange(m) && h < |m| && x < |m|
  {
    && InRange(m2) && SameLabels(m, m2)
    && Lefts(m2) == Lefts(m)[x := m[h].left][h := x]
    && Rights(m2) == Rights(m)[x := h][m[h].left := x]
    && Ups(m2) == Ups(m) && Downs(m2) == Downs(m) && Sizes(m2) == Sizes(m)
  }

  function PutLeft(m: Pool, h: nat, x: nat): (m2: Pool)
    requires InRange(m) && h < |m| && x < |m| && h != x
    ensures PutLeftLinks(m, m2, h, x)
  {
    var m1 := SetLeft(m, x, m[h].left);
    var m2 := SetRight(m1, x, h);
    var m3 := SetRight(m2, m2[h].left, x);
    SetLeft(m3, h, x)
  }

  function PutUp(m: Pool, c: nat, x: nat): (m2: Pool)
    requires InRange(m) && c < |m| && x < |m| && c != x && m[x].col == c
    ensures InRange(m2) && SameLabels(m, m2)
    ensures Ups(m2) == Ups(m)[x := m[c].up][c := x]
    ensures Downs(m2) == Downs(m)[x := c][m[c].up := x]
    ensures Lefts(m2) == Lefts(m) && Rights(m2) == Rights(m)
    ensures Sizes(m2) == Sizes(m)[c := m[c].size + 1]
  {
    var m1 := SetUp(m, x, m[c].up);
    var m2 := SetDown(m1, x, c);
    var m3 := SetDown(m2, m2[c].up, x);
    var m4 := SetUp(m3, c, x);
    AddSize(m4, c, 1)
  }

  /** A slot linked only to itself, in column `c`. */
  function Loner(m: Pool, x: nat, c: nat, n: int): (m2: Pool)
    requires InRange(m) && x < |m| && c < |m|
    ensures InRange(m2) && |m2| == |m|
    ensures Lefts(m2) == Lefts(m)[x := x] && Rights(m2) == Rights(m)[x := x]
    ensures Ups(m2) == Ups(m)[x := x] && Downs(m2) == Downs(m)[x := x]
    ensures Sizes(m2) == Sizes(m)[x := 0]
  {
    m[x := Node(x, x, x, x, c, n, 0)]
  }

  // ---- columns ----

  /** `x` is not yet a slot of the matrix. */
  ghost predicate Fresh(S: Shape, x: nat) {
    x != ROOT && x !in S.cols && x !in S.nodes
  }

  ghost function WithColumn(S: Shape, x: nat): Shape {
    S.(cols := S.cols + {x})
  }

  ghost function ColumnGrid(G: Grid, x: nat): Grid
    requires x < |G.lists|
  {
    Grid(G.heads + [x], G.lists[x := []])
  }

  /** Appending a header to a matrix that has no rows yet. */
  lemma AppendColumnKeepsLinked(S: Shape, m: Pool, G: Grid, x: nat, n: int)
    requires Linked(S, m, G) && S.nodes == {} && Fresh(S, x) && x < |m|
    ensures Linked(WithColumn(S, x), PutLeft(Loner(m, x, x, n), ROOT, x), ColumnGrid(G, x))
  {
    var m1 := Loner(m, x, x, n);
    var m2, S2, G2 := PutLeft(m1, ROOT, x), WithColumn(S, x), ColumnGrid(G, x);
    forall y | y in G.heads ensures y != x && y < |m| {
      assert y in S.cols;
    }
    RingFrame(Rights(m), Lefts(m), Rights(m1), Lefts(m1), ROOT, G.heads);
    RingAppend(Rights(m1), Lefts(m1), ROOT, G.heads, x);
    forall c | c in S2.cols ensures c < |m2| && ColumnOk(S2, m2, G2, c) {
      if c == x {
        assert Sizes(m2)[x] == m2[x].size;
      } else {
        assert ColumnOk(S, m, G, c);
        AppendOtherColumn(S, m, G, x, n, c);
      }
    }
  }

  lemma AppendOtherColumn(S: Shape, m: Pool, G: Grid, x: nat, n: int, c: nat)
    requires InRange(m) && |m| == |S.colOf| == |G.lists| && x < |m| && c < |m| && x != c && x != ROOT
    requires ColumnOk(S, m, G, c) && S.nodes == {}
    ensures ColumnOk(WithColumn(S, x), PutLeft(Loner(m, x, x, n), ROOT, x), ColumnGrid(G, x), c)
  {
    var m2 := PutLeft(Loner(m, x, x, n), ROOT, x);
    forall y | y in G.lists[c] ensures false {
    }
    RingFrame(Downs(m), Ups(m), Downs(m2), Ups(m2), c, G.lists[c]);
    assert Sizes(m2)[c] == m2[c].size && Sizes(m)[c] == m[c].size;
  }

  // ---- rows ----

  /** The columns as the pool holds them, with nothing said about rows and headers. */
  ghost predicate Vertical(S: Shape, m: Pool, G: Grid) {
    && InRange(m) && |m| == |S.colOf| == |G.lists| && S.cols !! S.nodes
    && (forall c {:trigger c in S.cols} :: c in S.cols ==> c < |m|)
    && (forall c {:trigger ColumnOk(S, m, G, c)} :: c in S.cols ==> ColumnOk(S, m, G, c))
  }

  ghost function WithNode(S: Shape, x: nat, c: nat): Shape
    requires x < |S.colOf|
  {
    S.(nodes := S.nodes + {x}, colOf := S.colOf[x := c])
  }

  ghost function NodeGrid(G: Grid, x: nat, c: nat): Grid
    requires c < |G.lists|
  {
    G.(lists := G.lists[c := G.lists[c] + [x]])
  }

  /** All but the slot `x` is as before in the links of rows and in the labels. */
  ghost predicate LoneNode(m: Pool, m2: Pool, x: nat, c: nat, n: int)
    requires |m| == |m2| && x < |m|
  {
    && m2[x].left == x && m2[x].right == x && m2[x].col == c && m2[x].name == n
    && forall k {:trigger m2[k]} :: 0 <= k < |m| && k != x ==>
         m2[k].left == m[k].left && m2[k].right == m[k].right && m2[k].col == m[k].col && m2[k].name == m[k].name
  }

  /** The writes of `new_row`: a lone node, put at the bottom of column `c`. */
  function NewRowWrites(m: Pool, x: nat, c: nat, n: int): (m2: Pool)
    requires InRange(m) && x < |m| && c < |m| && x != c
    ensures InRange(m2) && |m2| == |m|
  {
    PutUp(Loner(m, x, c, n), c, x)
  }

  lemma NewRowLabels(m: Pool, x: nat, c: nat, n: int)
    requires InRange(m) && x < |m| && c < |m| && x != c
    ensures LoneNode(m, NewRowWrites(m, x, c, n), x, c, n)
  {
    var m1, m2 := Loner(m, x, c, n), NewRowWrites(m, x, c, n);
    forall k | 0 <= k < |m| ensures m2[k].left == m1[k].left && m2[k].right == m1[k].right {
      assert m2[k].left == Lefts(m2)[k] && m2[k].right == Rights(m2)[k];
      assert m1[k].left == Lefts(m1)[k] && m1[k].right == Rights(m1)[k];
    }
  }

  ghost predicate IsNewRow(m: Pool, x: nat, c: nat, n: int, m2: Pool)
    requires InRange(m) && x < |m| && c < |m| && x != c
  {
    forall y {:trigger Open(y)} :: y == m ==> m2 == NewRowWrites(y, x, c, n)
  }

  /** The pool after `new_row`. */
  ghost function NewRow(m: Pool, x: nat, c: nat, n: int): (m2: Pool)
    requires InRange(m) && x < |m| && c < |m| && x != c
    ensures InRange(m2) && |m2| == |m| && LoneNode(m, m2, x, c, n)
  {
    NewRowLabels(m, x, c, n);
    assert IsNewRow(m, x, c, n, NewRowWrites(m, x, c, n));
    var m2 :| InRange(m2) && |m2| == |m| && LoneNode(m, m2, x, c, n) && IsNewRow(m, x, c, n, m2); m2
  }

  lemma NewRowIs(m: Pool, x: nat, c: nat, n: int)
    requires InRange(m) && x < |m| && c < |m| && x != c
    ensures NewRow(m, x, c, n) == NewRowWrites(m, x, c, n)
  {
    assert IsNewRow(m, x, c, n, NewRow(m, x, c, n)) && Open(m);
  }

  lemma NewRowOwnColumn(S: Shape, m: Pool, G: Grid, x: nat, c: nat, n: int)
    requires InRange(m) && |m| == |S.colOf| == |G.lists| && x < |m| && c < |m| && x != c && x !in S.nodes
    requires ColumnOk(S, m, G, c)
    ensures ColumnOk(WithNode(S, x, c), NewRow(m, x, c, n), NodeGrid(G, x, c), c)
  {
    NewRowIs(m, x, c, n);
    var m1, m2 := Loner(m, x, c, n), NewRow(m, x, c, n);
    forall y | y in G.lists[c] ensures y != x && y < |m| {
    }
    RingFrame(Downs(m), Ups(m), Downs(m1), Ups(m1), c, G.lists[c]);
    RingAppend(Downs(m1), Ups(m1), c, G.lists[c], x);
    assert Sizes(m2)[c] == m2[c].size && Sizes(m1)[c] == m1[c].size && Sizes(m)[c] == m[c].size;
  }

  /** The vertical links of whoever is not next to the new node are as they were. */
  lemma NewRowLinks(m: Pool, x: nat, c: nat, n: int, y: nat)
    requires InRange(m) && x < |m| && c < |m| && x != c && y < |m| && y != x && y != c && y != m[c].up
    ensures var m2 := NewRow(m, x, c, n); Downs(m2)[y] == Downs(m)[y] && Ups(m2)[y] == Ups(m)[y]
  {
    NewRowIs(m, x, c, n);
    assert Loner(m, x, c, n)[c] == m[c] && Loner(m, x, c, n)[y] == m[y];
  }

  lemma NewRowSize(m: Pool, x: nat, c: nat, n: int, d: nat)
    requires InRange(m) && x < |m| && c < |m| && x != c && d < |m| && d != x && d != c
    ensures NewRow(m, x, c, n)[d].size == m[d].size
  {
    NewRowIs(m, x, c, n);
    assert Sizes(NewRow(m, x, c, n))[d] == Sizes(Loner(m, x, c, n))[d];
    assert Loner(m, x, c, n)[d] == m[d];
  }

  /** The node above a column is the column itself or one of its own. */
  lemma LastOfColumn(S: Shape, m: Pool, G: Grid, c: nat, d: nat, y: nat)
    requires Vertical(S, m, G) && c in S.cols && d in S.cols && d != c && d < |m| && (y == d || y in G.lists[d])
    ensures c < |m| && y < |m| && y != c && y != m[c].up && (y in S.cols || y in S.nodes)
  {
    assert ColumnOk(S, m, G, c) && ColumnOk(S, m, G, d);
    RingMirror(Downs(m), Ups(m), c, G.lists[c], c);
  }

  lemma NewRowOtherColumn(S: Shape, m: Pool, G: Grid, x: nat, c: nat, n: int, d: nat)
    requires Vertical(S, m, G) && x < |m| && c in S.cols && Fresh(S, x) && d in S.cols && d != c
    ensures c < |m| && d < |m| && ColumnOk(WithNode(S, x, c), NewRow(m, x, c, n), NodeGrid(G, x, c), d)
  {
    var m2, list := NewRow(m, x, c, n), G.lists[d];
    assert ColumnOk(S, m, G, d);
    forall y {:trigger y in list} | y == d || y in list
      ensures y < |m| && Downs(m2)[y] == Downs(m)[y] && Ups(m2)[y] == Ups(m)[y]
    {
      LastOfColumn(S, m, G, c, d, y);
      NewRowLinks(m, x, c, n, y);
    }
    RingFrame(Downs(m), Ups(m), Downs(m2), Ups(m2), d, list);
    NewRowSize(m, x, c, n, d);
  }

  lemma NewRowKeepsVertical(S: Shape, m: Pool, G: Grid, x: nat, c: nat, n: int)
    requires Vertical(S, m, G) && x < |m| && c in S.cols && Fresh(S, x)
    ensures c < |m| && c < |G.lists| && Vertical(WithNode(S, x, c), NewRow(m, x, c, n), NodeGrid(G, x, c))
  {
    assert ColumnOk(S, m, G, c);
    forall d | d in S.cols
      ensures d < |m| && ColumnOk(WithNode(S, x, c), NewRow(m, x, c, n), NodeGrid(G, x, c), d)
    {
      assert ColumnOk(S, m, G, d);
      if d == c {
        NewRowOwnColumn(S, m, G, x, c, n);
      } else {
        NewRowOtherColumn(S, m, G, x, c, n, d);
      }
    }
  }

  /** Four slots linked in a circle are a row ring from the point of view of each. */
  lemma RingOfFour(nxt: seq<nat>, prv: seq<nat>, w: nat, x: nat, y: nat, z: nat)
    requires |nxt| == |prv| && w < |nxt| && x < |nxt| && y < |nxt| && z < |nxt|
    requires w != x && w != y && w != z && x != y && x != z && y != z
    requires nxt[w] == x && nxt[x] == y && nxt[y] == z && nxt[z] == w
    requires prv[w] == z && prv[x] == w && prv[y] == x && prv[z] == y
    ensures IsRing(nxt, prv, w, [x, y, z])
  {
    var s := [x, y, z];
    assert LinkAt(nxt, prv, w, s, 0);
    assert LinkAt(nxt, prv, w, s, 1);
    assert LinkAt(nxt, prv, w, s, 2);
  }

  // ---- a whole row: four new nodes, then joined ----

  /** Shape, grid and pool when the first `j` nodes of a row at slots `a`, `a + 1`, ... exist. */
  ghost function SpreadShape(S: Shape, a: nat, cs: seq<nat>, j: nat): (S2: Shape)
    requires j <= |cs| && a + |cs| <= |S.colOf|
    ensures S2.cols == S.cols && |S2.colOf| == |S.colOf| && S2.others == S.others
    ensures forall x :: x in S2.nodes <==> x in S.nodes || a <= x < a + j
    ensures forall k {:trigger S2.colOf[k]} :: 0 <= k < |S.colOf| ==>
              S2.colOf[k] == if a <= k < a + j then cs[k - a] else S.colOf[k]
  {
    if j == 0 then S else WithNode(SpreadShape(S, a, cs, j - 1), a + j - 1, cs[j - 1])
  }

  ghost function SpreadGrid(G: Grid, a: nat, cs: seq<nat>, j: nat): (G2: Grid)
    requires j <= |cs| && forall i :: 0 <= i < |cs| ==> cs[i] < |G.lists|
    ensures G2.heads == G.heads && |G2.lists| == |G.lists|
    ensures forall c, x {:trigger x in G2.lists[c]} :: 0 <= c < |G.lists| ==>
              (x in G2.lists[c] <==> x in G.lists[c] || (a <= x < a + j && cs[x - a] == c))
  {
    if j == 0 then G else NodeGrid(SpreadGrid(G, a, cs, j - 1), a + j - 1, cs[j - 1])
  }

  ghost predicate SpreadOk(m: Pool, a: nat, cs: seq<nat>, ns: seq<int>) {
    InRange(m) && a + |cs| <= |m| && |ns| == |cs| && forall i :: 0 <= i < |cs| ==> cs[i] < a
  }

  ghost function SpreadPool(m: Pool, a: nat, cs: seq<nat>, ns: seq<int>, j: nat): (m2: Pool)
    requires SpreadOk(m, a, cs, ns) && j <= |cs|
    ensures InRange(m2) && |m2| == |m|
    ensures forall k {:trigger m2[k]} :: 0 <= k < |m| ==>
              if a <= k < a + j then
                m2[k].left == k && m2[k].right == k && m2[k].col == cs[k - a] && m2[k].name == ns[k - a]
              else
                && m2[k].left == m[k].left && m2[k].right == m[k].right
                && m2[k].col == m[k].col && m2[k].name == m[k].name
  {
    if j == 0 then m
    else
      var m1 := SpreadPool(m, a, cs, ns, j - 1);
      NewRow(m1, a + j - 1, cs[j - 1], ns[j - 1])
  }

  /** One more call of `new_row`. */
  lemma SpreadStep(m: Pool, a: nat, cs: seq<nat>, ns: seq<int>, j: nat)
    requires SpreadOk(m, a, cs, ns) && j < |cs|
    ensures SpreadPool(m, a, cs, ns, j + 1) == NewRow(SpreadPool(m, a, cs, ns, j), a + j, cs[j], ns[j])
  {
  }

  lemma SpreadNone(m: Pool, a: nat, cs: seq<nat>, ns: seq<int>, j: nat)
    requires SpreadOk(m, a, cs, ns) && j == 0
    ensures SpreadPool(m, a, cs, ns, j) == m
  {
  }

  lemma {:induction false} SpreadKeepsVertical(S: Shape, m: Pool, G: Grid, a: nat, cs: seq<nat>, ns: seq<int>, j: nat)
    requires Vertical(S, m, G) && SpreadOk(m, a, cs, ns) && j <= |cs|
    requires forall i :: 0 <= i < |cs| ==> cs[i] in S.cols
    requires ROOT < a && forall x :: x in S.cols || x in S.nodes ==> x < a
    ensures Vertical(SpreadShape(S, a, cs, j), SpreadPool(m, a, cs, ns, j), SpreadGrid(G, a, cs, j))
  {
    if j > 0 {
      SpreadKeepsVertical(S, m, G, a, cs, ns, j - 1);
      NewRowKeepsVertical(SpreadShape(S, a, cs, j - 1), SpreadPool(m, a, cs, ns, j - 1), SpreadGrid(G, a, cs, j - 1),
                          a + j - 1, cs[j - 1], ns[j - 1]);
    }
  }

  /** The four nodes joined to a row. */
  function Joined(m: Pool, a: nat): (m2: Pool)
    requires InRange(m) && a + 3 < |m|
    ensures InRange(m2) && SameLabels(m, m2)
    ensures Ups(m2) == Ups(m) && Downs(m2) == Downs(m) && Sizes(m2) == Sizes(m)
  {
    PutLeft(PutLeft(PutLeft(m, a, a + 1), a, a + 2), a, a + 3)
  }

  /** `k` is a slot of the row at `a`. */
  predicate InRow(a: nat, k: nat) {
    a <= k < a + 4
  }

  /** Joining four lone nodes gives a circle and touches nothing else. */
  ghost predicate Circle(m: Pool, m2: Pool, a: nat)
    requires |m| == |m2| && a + 3 < |m|
  {
    && m2[a].right == a + 1 && m2[a + 1].right == a + 2 && m2[a + 2].right == a + 3 && m2[a + 3].right == a
    && m2[a].left == a + 3 && m2[a + 1].left == a && m2[a + 2].left == a + 1 && m2[a + 3].left == a + 2
    && (forall k {:trigger m2[k]} :: 0 <= k < |m| && !InRow(a, k) ==>
          m2[k].left == m[k].left && m2[k].right == m[k].right)
  }

  /** The links of a row under construction: `j` nodes joined to the node at `a`. */
  ghost predicate Chain(m: Pool, m2: Pool, a: nat, j: nat)
    requires |m| == |m2| && a + 3 < |m| && j < 4
  {
    && m2[a].left == a + j && m2[a + j].right == a
    && (forall k {:trigger m2[k]} :: a < k <= a + j ==> m2[k].left == k - 1)
    && (forall k {:trigger m2[k]} :: a <= k < a + j ==> m2[k].right == k + 1)
    && (forall k {:trigger m2[k]} :: 0 <= k < |m| && !(a <= k <= a + j) ==>
          m2[k].left == m[k].left && m2[k].right == m[k].right)
  }

  lemma ChainStep(m: Pool, m1: Pool, a: nat, j: nat)
    requires InRange(m1) && |m| == |m1| && a + 3 < |m| && j < 3 && Chain(m, m1, a, j)
    ensures Chain(m, PutLeft(m1, a, a + j + 1), a, j + 1)
  {
    var m2 := PutLeft(m1, a, a + j + 1);
    forall k | 0 <= k < |m|
      ensures m2[k].left == if k == a then a + j + 1 else if k == a + j + 1 then a + j else m1[k].left
      ensures m2[k].right == if k == a + j then a + j + 1 else if k == a + j + 1 then a else m1[k].right
    {
      assert Lefts(m2)[k] == m2[k].left && Rights(m2)[k] == m2[k].right;
      assert Lefts(m1)[k] == m1[k].left && Rights(m1)[k] == m1[k].right;
    }
  }

  lemma JoinedCircle(m: Pool, a: nat)
    requires InRange(m) && a + 3 < |m|
    requires forall i {:trigger m[i]} :: a <= i < a + 4 ==> m[i].left == i && m[i].right == i
    ensures Circle(m, Joined(m, a), a)
  {
    ChainStep(m, m, a, 0);
    ChainStep(m, PutLeft(m, a, a + 1), a, 1);
    ChainStep(m, PutLeft(PutLeft(m, a, a + 1), a, a + 2), a, 2);
  }

  // ---- the matrix with the row in it ----

  /** The other slots of the row at `a`, going right from slot `k`. */
  function RowOthers(a: nat, k: nat): (os: seq<nat>)
    requires InRow(a, k)
    ensures Distinct(os) && forall q :: q in os <==> InRow(a, q) && q != k
  {
    if k == a then [a + 1, a + 2, a + 3]
    else if k == a + 1 then [a + 2, a + 3, a]
    else if k == a + 2 then [a + 3, a, a + 1]
    else [a, a + 1, a + 2]
  }

  ghost function RowShape(S: Shape, a: nat, cs: seq<nat>): (S2: Shape)
    requires |cs| == 4 && a + 4 <= |S.colOf| == |S.others|
    ensures |S2.others| == |S.others|
    ensures forall k {:trigger S2.others[k]} :: 0 <= k < |S.others| ==>
              S2.others[k] == if InRow(a, k) then RowOthers(a, k) else S.others[k]
  {
    var S1 := SpreadShape(S, a, cs, 4);
    Shape(S1.cols, S1.nodes, S1.colOf, seq(|S.others|, k requires 0 <= k < |S.others| =>
      if InRow(a, k) then RowOthers(a, k) else S.others[k]))
  }

  ghost predicate RowRoom(S: Shape, m: Pool, G: Grid, a: nat, cs: seq<nat>, ns: seq<int>) {
    && Good(S, m, G) && SpreadOk(m, a, cs, ns) && |cs| == 4 && ROOT < a
    && Distinct(cs) && (forall i :: 0 <= i < 4 ==> cs[i] in G.heads)
    && (forall x {:trigger x in S.cols} {:trigger x in S.nodes} :: x in S.cols || x in S.nodes ==> x < a)
  }

  ghost predicate IsRowPool(m: Pool, a: nat, cs: seq<nat>, ns: seq<int>, m2: Pool)
    requires SpreadOk(m, a, cs, ns) && |cs| == 4
  {
    forall x {:trigger Open(x)} :: x == m ==> m2 == Joined(SpreadPool(x, a, cs, ns, 4), a)
  }

  /** The pool after the four nodes at `a` have been created and joined. */
  ghost function RowPool(m: Pool, a: nat, cs: seq<nat>, ns: seq<int>): (m2: Pool)
    requires SpreadOk(m, a, cs, ns) && |cs| == 4
    ensures InRange(m2) && |m2| == |m|
  {
    assert IsRowPool(m, a, cs, ns, Joined(SpreadPool(m, a, cs, ns, 4), a));
    var m2 :| InRange(m2) && |m2| == |m| && IsRowPool(m, a, cs, ns, m2); m2
  }

  lemma RowPoolIs(m: Pool, a: nat, cs: seq<nat>, ns: seq<int>)
    requires SpreadOk(m, a, cs, ns) && |cs| == 4
    ensures RowPool(m, a, cs, ns) == Joined(SpreadPool(m, a, cs, ns, 4), a)
  {
    assert IsRowPool(m, a, cs, ns, RowPool(m, a, cs, ns)) && Open(m);
  }

  lemma RowShapeNode(S: Shape, a: nat, cs: seq<nat>, n: nat)
    requires ValidShape(S) && |cs| == 4 && a + 4 <= |S.colOf| && Distinct(cs)
    requires forall i :: 0 <= i < 4 ==> cs[i] in S.cols
    requires forall x {:trigger x in S.nodes} :: x in S.nodes ==> x < a
    requires n in RowShape(S, a, cs).nodes
    ensures NodeOk(RowShape(S, a, cs), n)
  {
    var S2 := RowShape(S, a, cs);
    if InRow(a, n) {
      forall k | k in S2.others[n] ensures Mates(S2, n, k) {
        assert InRow(a, k) && k != n;
        assert S2.colOf[k] == cs[k - a] && S2.colOf[n] == cs[n - a];
      }
    } else {
      assert NodeOk(S, n);
      forall k | k in S2.others[n] ensures Mates(S2, n, k) {
        assert Mates(S, n, k);
      }
    }
  }

  lemma RowShapeValid(S: Shape, m: Pool, G: Grid, a: nat, cs: seq<nat>, ns: seq<int>)
    requires RowRoom(S, m, G, a, cs, ns)
    ensures ValidShape(RowShape(S, a, cs))
  {
    forall n | n in RowShape(S, a, cs).nodes ensures NodeOk(RowShape(S, a, cs), n) {
      RowShapeNode(S, a, cs, n);
    }
  }

  lemma RowPoolLinks(m: Pool, a: nat, cs: seq<nat>, ns: seq<int>)
    requires SpreadOk(m, a, cs, ns) && |cs| == 4
    ensures var m2 := RowPool(m, a, cs, ns);
      && |m2| == |m| && Circle(m, m2, a)
      && (forall k {:trigger m2[k]} :: 0 <= k < |m| ==>
            && m2[k].col == (if InRow(a, k) then cs[k - a] else m[k].col)
            && m2[k].name == (if InRow(a, k) then ns[k - a] else m[k].name))
  {
    RowPoolIs(m, a, cs, ns);
    var m1 := SpreadPool(m, a, cs, ns, 4);
    JoinedCircle(m1, a);
  }

  lemma RowPoolRing(m: Pool, a: nat, cs: seq<nat>, ns: seq<int>, k: nat)
    requires SpreadOk(m, a, cs, ns) && |cs| == 4 && InRow(a, k)
    ensures var m2 := RowPool(m, a, cs, ns); IsRing(Rights(m2), Lefts(m2), k, RowOthers(a, k))
  {
    RowPoolLinks(m, a, cs, ns);
    var m2 := RowPool(m, a, cs, ns);
    var r, l := Rights(m2), Lefts(m2);
    assert r[a] == a + 1 && r[a + 1] == a + 2 && r[a + 2] == a + 3 && r[a + 3] == a;
    assert l[a] == a + 3 && l[a + 1] == a && l[a + 2] == a + 1 && l[a + 3] == a + 2;
    if k == a { RingOfFour(r, l, a, a + 1, a + 2, a + 3); }
    else if k == a + 1 { RingOfFour(r, l, a + 1, a + 2, a + 3, a); }
    else if k == a + 2 { RingOfFour(r, l, a + 2, a + 3, a, a + 1); }
    else { RingOfFour(r, l, a + 3, a, a + 1, a + 2); }
  }

  /** Rings that do not pass through the new slots are not affected. */
  lemma RowPoolFrame(m: Pool, a: nat, cs: seq<nat>, ns: seq<int>, h: nat, s: seq<nat>)
    requires SpreadOk(m, a, cs, ns) && |cs| == 4
    requires IsRing(Rights(m), Lefts(m), h, s) && h < a && forall x {:trigger x in s} :: x in s ==> x < a
    ensures var m2 := RowPool(m, a, cs, ns); IsRing(Rights(m2), Lefts(m2), h, s)
  {
    RowPoolLinks(m, a, cs, ns);
    var m2 := RowPool(m, a, cs, ns);
    RingFrame(Rights(m), Lefts(m), Rights(m2), Lefts(m2), h, s);
  }

  lemma RowPoolLinked(S: Shape, m: Pool, G: Grid, a: nat, cs: seq<nat>, ns: seq<int>)
    requires RowRoom(S, m, G, a, cs, ns)
    ensures (forall i :: 0 <= i < 4 ==> cs[i] < |G.lists|)
    ensures Linked(RowShape(S, a, cs), RowPool(m, a, cs, ns), SpreadGrid(G, a, cs, 4))
  {
    RowShapeValid(S, m, G, a, cs, ns);
    RowPoolLinks(m, a, cs, ns);
    forall i | 0 <= i < 4 ensures cs[i] in S.cols {
      assert cs[i] in G.heads;
    }
    var S2, m2, G2 := RowShape(S, a, cs), RowPool(m, a, cs, ns), SpreadGrid(G, a, cs, 4);
    forall n | n in S2.nodes ensures RowOk(S2, m2, n) {
      if InRow(a, n) {
        RowPoolRing(m, a, cs, ns, n);
      } else {
        OldRowOk(S, m, G, a, cs, ns, n);
      }
    }
    RowPoolFrame(m, a, cs, ns, ROOT, G.heads);
    RowPoolColumns(S, m, G, a, cs, ns);
  }

  lemma OldRowOk(S: Shape, m: Pool, G: Grid, a: nat, cs: seq<nat>, ns: seq<int>, n: nat)
    requires RowRoom(S, m, G, a, cs, ns) && n in S.nodes
    ensures RowOk(RowShape(S, a, cs), RowPool(m, a, cs, ns), n)
  {
    assert RowOk(S, m, n) && NodeOk(S, n);
    forall x | x in S.others[n] ensures x < a {
      assert Mates(S, n, x);
    }
    RowPoolFrame(m, a, cs, ns, n, S.others[n]);
    RowPoolLinks(m, a, cs, ns);
  }

  lemma RowPoolColumns(S: Shape, m: Pool, G: Grid, a: nat, cs: seq<nat>, ns: seq<int>)
    requires RowRoom(S, m, G, a, cs, ns) && forall i :: 0 <= i < 4 ==> cs[i] in S.cols && cs[i] < |G.lists|
    ensures var S2, m2, G2 := RowShape(S, a, cs), RowPool(m, a, cs, ns), SpreadGrid(G, a, cs, 4);
      forall c :: c in S2.cols ==> c < |m2| && ColumnOk(S2, m2, G2, c)
  {
    RowPoolIs(m, a, cs, ns);
    SpreadKeepsVertical(S, m, G, a, cs, ns, 4);
    var S1, m1, G2 := SpreadShape(S, a, cs, 4), SpreadPool(m, a, cs, ns, 4), SpreadGrid(G, a, cs, 4);
    var S2, m2 := RowShape(S, a, cs), Joined(m1, a);
    forall c | c in S2.cols ensures c < |m2| && ColumnOk(S2, m2, G2, c) {
      assert ColumnOk(S1, m1, G2, c);
      assert Sizes(m2)[c] == m2[c].size && Sizes(m1)[c] == m1[c].size;
    }
  }

  lemma RowPoolClosed(S: Shape, m: Pool, G: Grid, a: nat, cs: seq<nat>, ns: seq<int>)
    requires RowRoom(S, m, G, a, cs, ns) && forall i :: 0 <= i < 4 ==> cs[i] < |G.lists|
    ensures Closed(RowShape(S, a, cs), SpreadGrid(G, a, cs, 4))
  {
    var S2, G2 := RowShape(S, a, cs), SpreadGrid(G, a, cs, 4);
    forall c, n | c in G2.heads && c < |G2.lists| && n in G2.lists[c] ensures n < |S2.colOf| && RowClosed(S2, G2, n) {
      assert c in S.cols;
      if InRow(a, n) {
        NewRowClosed(S, m, G, a, cs, ns, n);
      } else {
        OldRowClosed(S, m, G, a, cs, ns, c, n);
      }
    }
  }

  lemma NewRowClosed(S: Shape, m: Pool, G: Grid, a: nat, cs: seq<nat>, ns: seq<int>, n: nat)
    requires RowRoom(S, m, G, a, cs, ns) && (forall i :: 0 <= i < 4 ==> cs[i] < |G.lists|) && InRow(a, n)
    ensures n < |S.colOf| && RowClosed(RowShape(S, a, cs), SpreadGrid(G, a, cs, 4), n)
  {
    var S2, G2 := RowShape(S, a, cs), SpreadGrid(G, a, cs, 4);
    forall k | k in S2.others[n] ensures InGrid(S2, G2.lists, k) && S2.colOf[k] in G2.heads {
      assert InRow(a, k) && S2.colOf[k] == cs[k - a];
      assert k in G2.lists[cs[k - a]];
    }
  }

  lemma OldRowClosed(S: Shape, m: Pool, G: Grid, a: nat, cs: seq<nat>, ns: seq<int>, c: nat, n: nat)
    requires RowRoom(S, m, G, a, cs, ns) && (forall i :: 0 <= i < 4 ==> cs[i] < |G.lists|) && !InRow(a, n)
    requires c in G.heads && c in S.cols && c < |G.lists| && n in SpreadGrid(G, a, cs, 4).lists[c]
    ensures n < |S.colOf| && RowClosed(RowShape(S, a, cs), SpreadGrid(G, a, cs, 4), n)
  {
    var S2, G2 := RowShape(S, a, cs), SpreadGrid(G, a, cs, 4);
    assert n in G.lists[c] && ColumnOk(S, m, G, c) && RowClosed(S, G, n) && NodeOk(S, n);
    forall k | k in S2.others[n] ensures InGrid(S2, G2.lists, k) && S2.colOf[k] in G2.heads {
      assert InGrid(S, G.lists, k);
      assert k in G.lists[S.colOf[k]];
    }
  }

  /** Adding a row with one node in each of four listed columns keeps the pool good. */
  lemma AddRowKeepsGood(S: Shape, m: Pool, G: Grid, a: nat, cs: seq<nat>, ns: seq<int>)
    requires RowRoom(S, m, G, a, cs, ns)
    ensures (forall i :: 0 <= i < 4 ==> cs[i] < |G.lists|)
    ensures Good(RowShape(S, a, cs), RowPool(m, a, cs, ns), SpreadGrid(G, a, cs, 4))
  {
    RowPoolLinked(S, m, G, a, cs, ns);
    RowPoolClosed(S, m, G, a, cs, ns);
  }
}
