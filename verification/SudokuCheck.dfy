/** The independent rule check, and the solver as its caller uses it. */
module SudokuCheck {
  import opened Sudoku
  import opened Matrix
  import opened ExactCover
  import opened Search
  import opened Encoding
  import opened DancingLinks

  // ---- counting digits ----

  function Ones(s: seq<int>): nat {
    if s == [] then 0 else (if s[0] == 1 then 1 else 0) + Ones(s[1..])
  }

  lemma {:induction false} OnesFull(s: seq<int>)
    ensures Ones(s) <= |s|
    ensures Ones(s) == |s| <==> forall i :: 0 <= i < |s| ==> s[i] == 1
  {
    if s != [] {
      OnesFull(s[1..]);
      assert forall i :: 1 <= i < |s| ==> s[i] == s[1..][i - 1];
    }
  }

  ghost predicate Counts(occurs: seq<int>, s: seq<int>) {
    |occurs| == 10 && forall v :: 0 <= v < 10 ==> occurs[v] == multiset(s)[v]
  }

  lemma {:induction false} CountAtMostOne(s: seq<int>, x: int)
    requires NoRepeat(s)
    ensures multiset(s)[x] == if x in s then 1 else 0
  {
    if s != [] {
      var k := |s| - 1;
      assert s == s[..k] + [s[k]];
      CountAtMostOne(s[..k], x);
    }
  }

  /** Nine of the ten counters are 1 exactly when no digit repeats. */
  lemma NineOnes(occurs: seq<int>, s: seq<int>)
    requires Counts(occurs, s) && |s| == 9 && forall i :: 0 <= i < 9 ==> 1 <= s[i] <= 9
    ensures Ones(occurs) == 9 <==> NoRepeat(s)
  {
    EveryDigitOnce(s, 9);
    assert 0 !in s && occurs[0] == 0;
    OnesFull(occurs[1..]);
    assert forall v :: 1 <= v < 10 ==> occurs[v] == occurs[1..][v - 1];
    if NoRepeat(s) {
      forall v | 1 <= v < 10 ensures occurs[v] == 1 {
        CountAtMostOne(s, v);
      }
    }
    if Ones(occurs) == 9 {
      forall v | 1 <= v <= 9 ensures v in s {
        assert occurs[v] == 1;
      }
    }
  }

  method CountOnes(occurs: array<int>) returns (n: nat)
    ensures n == Ones(occurs[..])
  {
    n := 0;
    var i := occurs.Length;
    while i > 0
      invariant 0 <= i <= occurs.Length && n == Ones(occurs[i..])
    {
      i := i - 1;
      if occurs[i] == 1 { n := n + 1; }
      assert occurs[i..][1..] == occurs[i + 1..];
    }
    assert occurs[0..] == occurs[..];
  }

  /** The digits of one unit, counted. */
  method UnitSolved(board: array<int>, k: nat, u: nat) returns (r: bool)
    requires Full(board[..]) && k < 3 && u < 9
    ensures r <==> NoRepeat(UnitValues(board[..], k, u))
  {
    var occurs := new int[10](_ => 0);
    ghost var s := UnitValues(board[..], k, u);
    for p := 0 to 9
      invariant Counts(occurs[..], s[..p])
    {
      var val := board[CellAt(k, u, p)];
      assert val == s[p] && s[..p + 1] == s[..p] + [val];
      occurs[val] := occurs[val] + 1;
    }
    assert s[..9] == s;
    NineOnes(occurs[..], s);
    var n := CountOnes(occurs);
    r := n == 9;
  }

  /** True exactly on the boards that obey the rules: rows first, then columns, then boxes. */
  method BoardSolved(board: array<int>) returns (r: bool)
    requires Full(board[..])
    ensures r <==> Valid(board[..])
  {
    for k := 0 to 3
      invariant forall j, u :: 0 <= j < k && 0 <= u < 9 ==> NoRepeat(UnitValues(board[..], j, u))
    {
      for u := 0 to 9
        invariant forall j, w :: 0 <= j < k && 0 <= w < 9 ==> NoRepeat(UnitValues(board[..], j, w))
        invariant forall w :: 0 <= w < u ==> NoRepeat(UnitValues(board[..], k, w))
      {
        var ok := UnitSolved(board, k, u);
        if !ok {
          ValidUnits(board[..]);
          return false;
        }
      }
    }
    ValidUnits(board[..]);
    return true;
  }

  /** The rules, unit by unit. */
  lemma ValidUnits(b: seq<int>)
    requires Full(b)
    ensures Valid(b) <==> forall k, u :: 0 <= k < 3 && 0 <= u < 9 ==> NoRepeat(UnitValues(b, k, u))
  {
    if Valid(b) {
      forall k, u | 0 <= k < 3 && 0 <= u < 9 ensures NoRepeat(UnitValues(b, k, u)) {
        UnitNoRepeat(b, k, u);
      }
    }
    if forall k, u :: 0 <= k < 3 && 0 <= u < 9 ==> NoRepeat(UnitValues(b, k, u)) {
      forall k, u, v | 0 <= k < 3 && 0 <= u < 9 && 1 <= v <= 9 ensures SeenIn(b, k, u, v) {
        assert NoRepeat(UnitValues(b, k, u));
        EveryDigitOnce(UnitValues(b, k, u), 9);
        UnitSees(b, k, u, v);
      }
      ValidIffAllSeen(b);
    }
  }

  // ---- the solver ----

  /** Solves the puzzle on the board in place.  It says true exactly when the givens have a completion,
      and then the board is one; otherwise the board is as it was. */
  method SolveSudoku(board: array<int>) returns (r: bool)
    requires IsBoard(board[..])
    modifies board
    ensures r <==> exists b :: Completion(old(board[..]), b)
    ensures r ==> Completion(old(board[..]), board[..])
    ensures !r ==> board[..] == old(board[..])
  {
    ghost var g := board[..];
    var d := new Dance(board);
    ghost var col := d.columns[..];
    NothingChosen(d.S, d.nodes[..], d.G);
    r := d.Solve(d.S, d.L, d.G, d.G);
    if r {
      assert d.stack[0..] == d.stack;
      CoverGivesBoard(d.S, d.L, d.G, col, g, d.stack);
      CoverSize(d.S, d.L, d.G, col, g, d.stack);
      assert |d.stack| == |EmptyCells(g)|;
    } else {
      forall b ensures !Completion(g, b) {
        if Completion(g, b) {
          var X := BoardGivesCover(d.S, d.L, d.G, col, g, b);
        }
      }
    }
  }

  /** The solver and the rule check agree: a solved board passes. */
  method SolveAndCheck(board: array<int>) returns (solvable: bool, checked: bool)
    requires IsBoard(board[..])
    modifies board
    ensures solvable <==> exists b :: Completion(old(board[..]), b)
    ensures solvable ==> checked
  {
    checked := false;
    solvable := SolveSudoku(board);
    if solvable {
      checked := BoardSolved(board);
    }
  }

  /** Givens that repeat a digit in a unit leave a matrix without an exact cover. */
  lemma ConflictHasNoCover(S: Shape, L: Labels, G: Grid, col: seq<nat>, g: seq<int>, k: nat, i: nat, j: nat)
    requires Encodes(S, L, G, col, g) && IsBoard(g) && k < 3 && i < j < CELLS
    requires UnitOf(k, i) == UnitOf(k, j) && g[i] == g[j] != 0
    ensures forall X {:trigger IsExactCover(S, G, X)} :: !IsExactCover(S, G, X)
  {
    forall X ensures !IsExactCover(S, G, X) {
      if IsExactCover(S, G, X) {
        CoverGivesBoard(S, L, G, col, g, X);
        ValidByUnits(Filled(S, L, X, g, |X|));
      }
    }
  }
}
