/** Sudoku boards, and why an exact cover of the encoded matrix is a completed board. */
module Sudoku {
  const CELLS: nat := 81

  /** The unit of cell `i`: its row (`k` = 0), its column (1) or its box (2). */
  function UnitOf(k: nat, i: nat): (u: nat)
    requires k < 3 && i < CELLS
    ensures u < 9
  {
    if k == 0 then i / 9 else if k == 1 then i % 9 else i / 9 / 3 * 3 + i % 9 / 3
  }

  /** The `p`-th cell of a unit, and the place of a cell in its unit. */
  function CellAt(k: nat, u: nat, p: nat): (i: nat)
    requires k < 3 && u < 9 && p < 9
    ensures i < CELLS
  {
    if k == 0 then u * 9 + p else if k == 1 then p * 9 + u else (u / 3 * 3 + p / 3) * 9 + (u % 3 * 3 + p % 3)
  }

  function Place(k: nat, i: nat): (p: nat)
    requires k < 3 && i < CELLS
    ensures p < 9
  {
    if k == 0 then i % 9 else if k == 1 then i / 9 else i / 9 % 3 * 3 + i % 9 % 3
  }

  lemma CellsOfUnit(k: nat, u: nat, p: nat)
    requires k < 3 && u < 9 && p < 9
    ensures UnitOf(k, CellAt(k, u, p)) == u && Place(k, CellAt(k, u, p)) == p
  {
    if k == 2 {
      CellsOfBox(u, p);
    } else {
      Nines(u, p, 9);
      Nines(p, u, 9);
    }
  }

  lemma CellsOfBox(u: nat, p: nat)
    requires u < 9 && p < 9
    ensures UnitOf(2, CellAt(2, u, p)) == u && Place(2, CellAt(2, u, p)) == p
  {
    var r, c := u / 3 * 3 + p / 3, u % 3 * 3 + p % 3;
    Nines(r, c, 9);
    assert CellAt(2, u, p) / 9 == r && CellAt(2, u, p) % 9 == c;
    Nines(u / 3, p / 3, 3);
    Nines(u % 3, p % 3, 3);
  }

  lemma Nines(r: nat, c: nat, n: nat)
    requires (n == 3 || n == 9) && c < n
    ensures (r * n + c) / n == r && (r * n + c) % n == c
  {
  }

  lemma UnitOfCell(k: nat, i: nat)
    requires k < 3 && i < CELLS
    ensures CellAt(k, UnitOf(k, i), Place(k, i)) == i
  {
    if k == 2 {
      var r, c := i / 9, i % 9;
      var u, p := UnitOf(k, i), Place(k, i);
      assert u / 3 == r / 3 && u % 3 == c / 3 && p / 3 == r % 3 && p % 3 == c % 3;
    }
  }

  // ---- boards ----

  ghost predicate IsBoard(b: seq<int>) {
    |b| == CELLS && forall i :: 0 <= i < CELLS ==> 0 <= b[i] <= 9
  }

  ghost predicate Full(b: seq<int>) {
    |b| == CELLS && forall i :: 0 <= i < CELLS ==> 1 <= b[i] <= 9
  }

  /** The digit in row `r` and column `c`. */
  function At(b: seq<int>, r: nat, c: nat): int
    requires |b| == CELLS && r < 9 && c < 9
  {
    b[9 * r + c]
  }

  /** The digit in row `i` and column `j` of the box that is the `a`-th from the top and the `e`-th from the left. */
  function InBox(b: seq<int>, a: nat, e: nat, i: nat, j: nat): int
    requires |b| == CELLS && a < 3 && e < 3 && i < 3 && j < 3
  {
    b[9 * (3 * a + i) + (3 * e + j)]
  }

  /** The rules of the game: no digit twice in a row, a column or a box. */
  ghost predicate Valid(b: seq<int>) {
    && Full(b)
    && (forall r, c, d {:trigger At(b, r, c), At(b, r, d)} ::
          0 <= r < 9 && 0 <= c < d < 9 ==> At(b, r, c) != At(b, r, d))
    && (forall c, r, s {:trigger At(b, r, c), At(b, s, c)} ::
          0 <= c < 9 && 0 <= r < s < 9 ==> At(b, r, c) != At(b, s, c))
    && (forall a, e, i, j, m, n {:trigger InBox(b, a, e, i, j), InBox(b, a, e, m, n)} ::
          0 <= a < 3 && 0 <= e < 3 && 0 <= i < 3 && 0 <= j < 3 && 0 <= m < 3 && 0 <= n < 3 && (i != m || j != n) ==>
          InBox(b, a, e, i, j) != InBox(b, a, e, m, n))
  }

  /** The same by units: no digit twice in any unit. */
  ghost predicate NoUnitRepeats(b: seq<int>)
    requires |b| == CELLS
  {
    forall k, i, j {:trigger UnitOf(k, i), UnitOf(k, j)} ::
      0 <= k < 3 && 0 <= i < j < CELLS && UnitOf(k, i) == UnitOf(k, j) ==> b[i] != b[j]
  }

  /** The units are the rows, the columns and the boxes. */
  lemma ValidByUnits(b: seq<int>)
    requires Full(b)
    ensures Valid(b) <==> NoUnitRepeats(b)
  {
    if Valid(b) {
      forall k, i, j | 0 <= k < 3 && 0 <= i < j < CELLS && UnitOf(k, i) == UnitOf(k, j) ensures b[i] != b[j] {
        CellsDiffer(b, k, i, j);
      }
    }
    if NoUnitRepeats(b) {
      forall r, c, d | 0 <= r < 9 && 0 <= c < d < 9 ensures At(b, r, c) != At(b, r, d) {
        LineCells(r, c, d);
      }
      forall c, r, s | 0 <= c < 9 && 0 <= r < s < 9 ensures At(b, r, c) != At(b, s, c) {
        ColumnCells(c, r, s);
      }
      forall a, e, i, j, m, n | 0 <= a < 3 && 0 <= e < 3 && 0 <= i < 3 && 0 <= j < 3 && 0 <= m < 3 && 0 <= n < 3 &&
          (i != m || j != n)
        ensures InBox(b, a, e, i, j) != InBox(b, a, e, m, n)
      {
        BoxCells(a, e, i, j);
        BoxCells(a, e, m, n);
      }
    }
  }

  lemma CellsDiffer(b: seq<int>, k: nat, i: nat, j: nat)
    requires Valid(b) && k < 3 && i < j < CELLS && UnitOf(k, i) == UnitOf(k, j)
    ensures b[i] != b[j]
  {
    if k == 0 {
      assert b[i] == At(b, i / 9, i % 9) && b[j] == At(b, i / 9, j % 9);
    } else if k == 1 {
      assert b[i] == At(b, i / 9, i % 9) && b[j] == At(b, j / 9, i % 9);
    } else {
      BoxDiffers(b, i, j);
    }
  }

  lemma BoxDiffers(b: seq<int>, i: nat, j: nat)
    requires Valid(b) && i < j < CELLS && UnitOf(2, i) == UnitOf(2, j)
    ensures b[i] != b[j]
  {
    var a, e, p, q := BoxParts(i);
    var a', e', m, n := BoxParts(j);
    assert a == a' && e == e';
    assert InBox(b, a, e, p, q) == b[i] && InBox(b, a, e, m, n) == b[j];
  }

  /** Where a cell is in its box. */
  lemma BoxParts(i: nat) returns (a: nat, e: nat, p: nat, q: nat)
    requires i < CELLS
    ensures a < 3 && e < 3 && p < 3 && q < 3 && i == 9 * (3 * a + p) + (3 * e + q) && UnitOf(2, i) == a * 3 + e
  {
    a, e, p, q := i / 9 / 3, i % 9 / 3, i / 9 % 3, i % 9 % 3;
  }

  lemma LineCells(r: nat, c: nat, d: nat)
    requires r < 9 && c < 9 && d < 9
    ensures UnitOf(0, 9 * r + c) == UnitOf(0, 9 * r + d) == r
  {
  }

  lemma ColumnCells(c: nat, r: nat, s: nat)
    requires r < 9 && c < 9 && s < 9
    ensures UnitOf(1, 9 * r + c) == UnitOf(1, 9 * s + c) == c
  {
  }

  lemma BoxCells(a: nat, e: nat, i: nat, j: nat)
    requires a < 3 && e < 3 && i < 3 && j < 3
    ensures UnitOf(2, 9 * (3 * a + i) + (3 * e + j)) == 3 * a + e
  {
    Nines(3 * a + i, 3 * e + j, 9);
  }

  ghost predicate Extends(g: seq<int>, b: seq<int>) {
    |g| == |b| == CELLS && forall i :: 0 <= i < CELLS && g[i] != 0 ==> b[i] == g[i]
  }

  /** `b` is a solution of the puzzle `g`. */
  ghost predicate Completion(g: seq<int>, b: seq<int>) {
    Valid(b) && Extends(g, b)
  }

  /** Digit `v` is on the board somewhere in unit `u` of kind `k`. */
  ghost predicate SeenIn(b: seq<int>, k: nat, u: nat, v: int)
    requires |b| == CELLS && k < 3
  {
    exists i :: 0 <= i < CELLS && UnitOf(k, i) == u && b[i] == v
  }

  ghost predicate EveryDigitSeen(b: seq<int>)
    requires |b| == CELLS
  {
    forall k, u, v {:trigger SeenIn(b, k, u, v)} :: 0 <= k < 3 && 0 <= u < 9 && 1 <= v <= 9 ==> SeenIn(b, k, u, v)
  }

  // ---- nine places, nine digits ----

  ghost predicate NoRepeat(s: seq<int>) {
    forall i, j :: 0 <= i < j < |s| ==> s[i] != s[j]
  }

  function Elements(s: seq<int>): set<int> {
    set x | x in s
  }

  lemma {:induction false} ElementsCount(s: seq<int>)
    ensures |Elements(s)| <= |s|
    ensures |Elements(s)| == |s| <==> NoRepeat(s)
  {
    if s != [] {
      var k := |s| - 1;
      var t, x := s[..k], s[k];
      ElementsCount(t);
      assert Elements(s) == Elements(t) + {x};
      if x in t {
        assert Elements(s) == Elements(t);
        var i :| 0 <= i < k && t[i] == x;
        assert s[i] == s[k];
      } else {
        assert forall i :: 0 <= i < k ==> s[i] == t[i];
      }
    }
  }

  function Digits(n: nat): (s: set<int>)
    ensures |s| == n && forall v {:trigger v in s} :: v in s <==> 1 <= v <= n
  {
    if n == 0 then {} else Digits(n - 1) + {n}
  }

  lemma SubsetCount(a: set<int>, b: set<int>)
    requires a <= b
    ensures |a| <= |b| && (|a| == |b| ==> a == b)
  {
    assert b == a + (b - a);
  }

  /** `n` places hold `n` different digits exactly when they hold every digit. */
  lemma EveryDigitOnce(s: seq<int>, n: nat)
    requires |s| == n && forall i :: 0 <= i < n ==> 1 <= s[i] <= n
    ensures NoRepeat(s) <==> forall v :: 1 <= v <= n ==> v in s
  {
    var all := Digits(n);
    ElementsCount(s);
    SubsetCount(Elements(s), all);
    if forall v :: 1 <= v <= n ==> v in s {
      assert Elements(s) == all;
    }
    if NoRepeat(s) {
      forall v | 1 <= v <= n ensures v in s {
        assert v in all && v in Elements(s);
      }
    }
  }

  function UnitValues(b: seq<int>, k: nat, u: nat): (s: seq<int>)
    requires |b| == CELLS && k < 3 && u < 9
    ensures |s| == 9 && forall p :: 0 <= p < 9 ==> s[p] == b[CellAt(k, u, p)]
  {
    seq(9, p requires 0 <= p < 9 => b[CellAt(k, u, p)])
  }

  lemma UnitSees(b: seq<int>, k: nat, u: nat, v: int)
    requires |b| == CELLS && k < 3 && u < 9
    ensures SeenIn(b, k, u, v) <==> v in UnitValues(b, k, u)
  {
    var s := UnitValues(b, k, u);
    if SeenIn(b, k, u, v) {
      var i :| 0 <= i < CELLS && UnitOf(k, i) == u && b[i] == v;
      UnitOfCell(k, i);
      assert s[Place(k, i)] == v;
    }
    if v in s {
      var p :| 0 <= p < 9 && s[p] == v;
      CellsOfUnit(k, u, p);
      assert UnitOf(k, CellAt(k, u, p)) == u;
    }
  }

  /** On a full board, no digit repeats in any unit exactly when every unit shows every digit. */
  lemma ValidIffAllSeen(b: seq<int>)
    requires Full(b)
    ensures Valid(b) <==> EveryDigitSeen(b)
  {
    ValidByUnits(b);
    if Valid(b) {
      forall k, u, v | 0 <= k < 3 && 0 <= u < 9 && 1 <= v <= 9 ensures SeenIn(b, k, u, v) {
        UnitNoRepeat(b, k, u);
        EveryDigitOnce(UnitValues(b, k, u), 9);
        UnitSees(b, k, u, v);
      }
    }
    if EveryDigitSeen(b) {
      forall k, i, j | 0 <= k < 3 && 0 <= i < j < CELLS && UnitOf(k, i) == UnitOf(k, j) ensures b[i] != b[j] {
        var u := UnitOf(k, i);
        forall v | 1 <= v <= 9 ensures v in UnitValues(b, k, u) {
          assert SeenIn(b, k, u, v);
          UnitSees(b, k, u, v);
        }
        EveryDigitOnce(UnitValues(b, k, u), 9);
        UnitOfCell(k, i);
        UnitOfCell(k, j);
        assert UnitValues(b, k, u)[Place(k, i)] == b[i] && UnitValues(b, k, u)[Place(k, j)] == b[j];
      }
    }
  }

  lemma UnitNoRepeat(b: seq<int>, k: nat, u: nat)
    requires Valid(b) && k < 3 && u < 9
    ensures NoRepeat(UnitValues(b, k, u))
  {
    ValidByUnits(b);
    forall p, q | 0 <= p < q < 9 ensures UnitValues(b, k, u)[p] != UnitValues(b, k, u)[q] {
      CellsOfUnit(k, u, p);
      CellsOfUnit(k, u, q);
      var i, j := CellAt(k, u, p), CellAt(k, u, q);
      assert UnitOf(k, i) == UnitOf(k, j) && i != j;
    }
  }
}
