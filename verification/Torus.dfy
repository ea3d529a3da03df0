/** The pool of nodes of the dancing-links matrix and the link surgery done on it.

    A run of edits is reasoned about edit by edit.  `Unlink(m, j)` is just `UnlinkWrites(m, j)`, as `UnlinkIs`
    says, and likewise `Relink`, `UnlinkHead` and `RelinkHead`; sealed, they are names for their writes. */
module Torus {

  import opened Sealing

  /** One pool slot; links are pool indices.  Column headers and matrix nodes share the type. */
  datatype Node = Node(left: nat, right: nat, up: nat, down: nat, col: nat, name: int, size: int)

  type Pool = seq<Node>

  predicate InRange(m: Pool) {
    forall i :: 0 <= i < |m| ==>
      m[i].left < |m| && m[i].right < |m| && m[i].up < |m| && m[i].down < |m| && m[i].col < |m|
  }

  function Rights(m: Pool): (r: seq<nat>)
    ensures |r| == |m| && forall i {:trigger r[i]} :: 0 <= i < |m| ==> r[i] == m[i].right
  { seq(|m|, i requires 0 <= i < |m| => m[i].right) }

  function Lefts(m: Pool): (r: seq<nat>)
    ensures |r| == |m| && forall i {:trigger r[i]} :: 0 <= i < |m| ==> r[i] == m[i].left
  { seq(|m|, i requires 0 <= i < |m| => m[i].left) }

  function Ups(m: Pool): (r: seq<nat>)
    ensures |r| == |m| && forall i {:trigger r[i]} :: 0 <= i < |m| ==> r[i] == m[i].up
  { seq(|m|, i requires 0 <= i < |m| => m[i].up) }

  function Downs(m: Pool): (r: seq<nat>)
    ensures |r| == |m| && forall i {:trigger r[i]} :: 0 <= i < |m| ==> r[i] == m[i].down
  { seq(|m|, i requires 0 <= i < |m| => m[i].down) }

  function Sizes(m: Pool): (r: seq<int>)
    ensures |r| == |m| && forall i {:trigger r[i]} :: 0 <= i < |m| ==> r[i] == m[i].size
  { seq(|m|, i requires 0 <= i < |m| => m[i].size) }

  /** What no link write ever changes: the column and the name of every slot. */
  ghost predicate SameLabels(m: Pool, m2: Pool) {
    |m| == |m2| && forall i {:trigger m2[i]} :: 0 <= i < |m| ==> m2[i].col == m[i].col && m2[i].name == m[i].name
  }

  // ---- one assignment through a link ----

  function SetLeft(m: Pool, x: nat, v: nat): (m2: Pool)
    requires InRange(m) && x < |m| && v < |m|
    ensures InRange(m2) && SameLabels(m, m2) && Lefts(m2) == Lefts(m)[x := v]
    ensures Rights(m2) == Rights(m) && Ups(m2) == Ups(m) && Downs(m2) == Downs(m) && Sizes(m2) == Sizes(m)
  { m[x := m[x].(left := v)] }

  function SetRight(m: Pool, x: nat, v: nat): (m2: Pool)
    requires InRange(m) && x < |m| && v < |m|
    ensures InRange(m2) && SameLabels(m, m2) && Rights(m2) == Rights(m)[x := v]
    ensures Lefts(m2) == Lefts(m) && Ups(m2) == Ups(m) && Downs(m2) == Downs(m) && Sizes(m2) == Sizes(m)
  { m[x := m[x].(right := v)] }

  function SetUp(m: Pool, x: nat, v: nat): (m2: Pool)
    requires InRange(m) && x < |m| && v < |m|
    ensures InRange(m2) && SameLabels(m, m2) && Ups(m2) == Ups(m)[x := v]
    ensures Lefts(m2) == Lefts(m) && Rights(m2) == Rights(m) && Downs(m2) == Downs(m) && Sizes(m2) == Sizes(m)
  { m[x := m[x].(up := v)] }

  function SetDown(m: Pool, x: nat, v: nat): (m2: Pool)
    requires InRange(m) && x < |m| && v < |m|
    ensures InRange(m2) && SameLabels(m, m2) && Downs(m2) == Downs(m)[x := v]
    ensures Lefts(m2) == Lefts(m) && Rights(m2) == Rights(m) && Ups(m2) == Ups(m) && Sizes(m2) == Sizes(m)
  { m[x := m[x].(down := v)] }

  function AddSize(m: Pool, x: nat, d: int): (m2: Pool)
    requires InRange(m) && x < |m|
    ensures InRange(m2) && SameLabels(m, m2) && Sizes(m2) == Sizes(m)[x := m[x].size + d]
    ensures Lefts(m2) == Lefts(m) && Rights(m2) == Rights(m) && Ups(m2) == Ups(m) && Downs(m2) == Downs(m)
  { m[x := m[x].(size := m[x].size + d)] }

  // ---- the writes of cover and uncover, one node at a time ----

  /** Take header `c` out of the header list. */
  function UnlinkHeadWrites(m: Pool, c: nat): (m2: Pool)
    requires InRange(m) && c < |m|
    ensures InRange(m2) && SameLabels(m, m2)
    ensures Lefts(m2) == Lefts(m)[m[c].right := m[c].left]
    ensures Rights(m2) == Rights(m)[m[c].left := m[c].right]
    ensures Ups(m2) == Ups(m) && Downs(m2) == Downs(m) && Sizes(m2) == Sizes(m)
  {
    var m1 := SetLeft(m, m[c].right, m[c].left);
    SetRight(m1, m1[c].left, m1[c].right)
  }

  ghost predicate IsUnlinkHead(m: Pool, c: nat, m2: Pool)
    requires InRange(m) && c < |m|
  {
    forall x {:trigger Open(x)} :: x == m ==> m2 == UnlinkHeadWrites(x, c)
  }

  ghost function UnlinkHead(m: Pool, c: nat): (m2: Pool)
    requires InRange(m) && c < |m|
    ensures InRange(m2) && SameLabels(m, m2)
  {
    assert IsUnlinkHead(m, c, UnlinkHeadWrites(m, c));
    var m2 :| InRange(m2) && SameLabels(m, m2) && IsUnlinkHead(m, c, m2); m2
  }

  lemma UnlinkHeadIs(m: Pool, c: nat)
    requires InRange(m) && c < |m|
    ensures UnlinkHead(m, c) == UnlinkHeadWrites(m, c)
  {
    assert IsUnlinkHead(m, c, UnlinkHead(m, c)) && Open(m);
  }

  /** Put header `c` back between its remembered neighbours. */
  function RelinkHeadWrites(m: Pool, c: nat): (m2: Pool)
    requires InRange(m) && c < |m|
    ensures InRange(m2) && SameLabels(m, m2)
  {
    var m1 := SetLeft(m, m[c].right, c);
    SetRight(m1, m1[c].left, c)
  }

  ghost predicate IsRelinkHead(m: Pool, c: nat, m2: Pool)
    requires InRange(m) && c < |m|
  {
    forall x {:trigger Open(x)} :: x == m ==> m2 == RelinkHeadWrites(x, c)
  }

  ghost function RelinkHead(m: Pool, c: nat): (m2: Pool)
    requires InRange(m) && c < |m|
    ensures InRange(m2) && SameLabels(m, m2)
  {
    assert IsRelinkHead(m, c, RelinkHeadWrites(m, c));
    var m2 :| InRange(m2) && SameLabels(m, m2) && IsRelinkHead(m, c, m2); m2
  }

  lemma RelinkHeadIs(m: Pool, c: nat)
    requires InRange(m) && c < |m|
    ensures RelinkHead(m, c) == RelinkHeadWrites(m, c)
  {
    assert IsRelinkHead(m, c, RelinkHead(m, c)) && Open(m);
  }

  /** Take node `j` out of its vertical ring. */
  function UnlinkWrites(m: Pool, j: nat): (m2: Pool)
    requires InRange(m) && j < |m|
    ensures InRange(m2) && SameLabels(m, m2)
    ensures Ups(m2) == Ups(m)[m[j].down := m[j].up]
    ensures Downs(m2) == Downs(m)[m[j].up := m[j].down]
    ensures Lefts(m2) == Lefts(m) && Rights(m2) == Rights(m)
    ensures Sizes(m2) == Sizes(m)[m[j].col := m[m[j].col].size - 1]
  {
    var m1 := SetUp(m, m[j].down, m[j].up);
    var m2 := SetDown(m1, m1[j].up, m1[j].down);
    AddSize(m2, m2[j].col, -1)
  }

  ghost predicate IsUnlink(m: Pool, j: nat, m2: Pool)
    requires InRange(m) && j < |m|
  {
    forall x {:trigger Open(x)} :: x == m ==> m2 == UnlinkWrites(x, j)
  }

  ghost function Unlink(m: Pool, j: nat): (m2: Pool)
    requires InRange(m) && j < |m|
    ensures InRange(m2) && SameLabels(m, m2)
  {
    assert IsUnlink(m, j, UnlinkWrites(m, j));
    var m2 :| InRange(m2) && SameLabels(m, m2) && IsUnlink(m, j, m2); m2
  }

  lemma UnlinkIs(m: Pool, j: nat)
    requires InRange(m) && j < |m|
    ensures Unlink(m, j) == UnlinkWrites(m, j)
  {
    assert IsUnlink(m, j, Unlink(m, j)) && Open(m);
  }

  /** Put node `j` back between its remembered vertical neighbours. */
  function RelinkWrites(m: Pool, j: nat): (m2: Pool)
    requires InRange(m) && j < |m|
    ensures InRange(m2) && SameLabels(m, m2)
  {
    var m0 := AddSize(m, m[j].col, 1);
    var m1 := SetUp(m0, m0[j].down, j);
    SetDown(m1, m1[j].up, j)
  }

  ghost predicate IsRelink(m: Pool, j: nat, m2: Pool)
    requires InRange(m) && j < |m|
  {
    forall x {:trigger Open(x)} :: x == m ==> m2 == RelinkWrites(x, j)
  }

  ghost function Relink(m: Pool, j: nat): (m2: Pool)
    requires InRange(m) && j < |m|
    ensures InRange(m2) && SameLabels(m, m2)
  {
    assert IsRelink(m, j, RelinkWrites(m, j));
    var m2 :| InRange(m2) && SameLabels(m, m2) && IsRelink(m, j, m2); m2
  }

  lemma RelinkIs(m: Pool, j: nat)
    requires InRange(m) && j < |m|
    ensures Relink(m, j) == RelinkWrites(m, j)
  {
    assert IsRelink(m, j, Relink(m, j)) && Open(m);
  }

  lemma RelinkUndoesUnlink(m: Pool, j: nat)
    requires InRange(m) && j < |m|
    requires m[j].up != j && m[j].down != j && m[m[j].down].up == j && m[m[j].up].down == j
    ensures Relink(Unlink(m, j), j) == m
  {
    UnlinkIs(m, j);
    RelinkIs(UnlinkWrites(m, j), j);
    var m2 := RelinkWrites(UnlinkWrites(m, j), j);
    assert forall i :: 0 <= i < |m| ==> m2[i] == m[i];
  }

  lemma RelinkHeadUndoesUnlinkHead(m: Pool, c: nat)
    requires InRange(m) && c < |m|
    requires m[c].left != c && m[c].right != c && m[m[c].right].left == c && m[m[c].left].right == c
    ensures RelinkHead(UnlinkHead(m, c), c) == m
  {
    UnlinkHeadIs(m, c);
    RelinkHeadIs(UnlinkHeadWrites(m, c), c);
    var m2 := RelinkHeadWrites(UnlinkHeadWrites(m, c), c);
    assert forall i :: 0 <= i < |m| ==> m2[i] == m[i];
  }

  ghost predicate Slots(m: Pool, ks: seq<nat>) {
    forall i :: 0 <= i < |ks| ==> ks[i] < |m|
  }

  /** The pool after unlinking the first `i` of the nodes `ks`, in order. */
  ghost function UnlinkRun(m: Pool, ks: seq<nat>, i: nat): (m2: Pool)
    requires InRange(m) && Slots(m, ks) && i <= |ks|
    ensures InRange(m2) && SameLabels(m, m2) && Lefts(m2) == Lefts(m) && Rights(m2) == Rights(m)
  {
    if i == 0 then m else UnlinkIs(UnlinkRun(m, ks, i - 1), ks[i - 1]); Unlink(UnlinkRun(m, ks, i - 1), ks[i - 1])
  }

  /** Puts the first `i` of the nodes `ks` back, last one first. */
  ghost function RelinkRun(m: Pool, ks: seq<nat>, i: nat): (m2: Pool)
    requires InRange(m) && Slots(m, ks) && i <= |ks|
    ensures InRange(m2) && |m2| == |m|
    decreases i
  {
    if i == 0 then m else RelinkRun(Relink(m, ks[i - 1]), ks, i - 1)
  }
}
