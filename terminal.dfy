/** The end of the game (`isGameOver`): when it holds, and that it holds
    exactly when no move can change the board. */
module Terminal {
  import opened Line
  import opened Board

  /** Cell (r, c) equals its right or its lower neighbour. */
  predicate MergeableAt(g: Grid, r: nat, c: nat)
    requires r < 4 && c < 4
  {
    (c < 3 && g[4 * r + c] == g[4 * r + c + 1]) || (r < 3 && g[4 * r + c] == g[4 * (r + 1) + c])
  }

  /** What `isGameOver` decides: the board is full and no cell equals its
      right or lower neighbour. */
  predicate GameOver(g: Grid)
  {
    (forall i :: 0 <= i < 16 ==> g[i] != 0) &&
    forall r, c :: 0 <= r < 4 && 0 <= c < 4 ==> !MergeableAt(g, r, c)
  }

  /** Row facts the game-over test gives. */
  lemma GameOverRow(g: Grid, r: nat)
    requires r < 4 && GameOver(g)
    ensures NoAdjacentEqual(Row(g, r)) && forall k :: 0 <= k < 4 ==> Row(g, r)[k] != 0
  {
    forall i, j | 0 <= i < j < 4 && j == i + 1 ensures Row(g, r)[i] != Row(g, r)[j] {
      assert !MergeableAt(g, r, i);
    }
  }

  lemma GameOverColumn(g: Grid, c: nat)
    requires c < 4 && GameOver(g)
    ensures NoAdjacentEqual(Column(g, c)) && forall k :: 0 <= k < 4 ==> Column(g, c)[k] != 0
  {
    forall i, j | 0 <= i < j < 4 && j == i + 1 ensures Column(g, c)[i] != Column(g, c)[j] {
      assert !MergeableAt(g, i, c);
    }
  }

  /** On a finished board no direction changes anything and nothing merges. */
  lemma GameOverIsStuck(g: Grid, d: Direction)
    requires GameOver(g)
    ensures Slide(g, d) == MoveResult(g, [])
  {
    var n := Slide(g, d).grid;
    SlideByLines(g, d);
    if d == Left || d == Right {
      forall r | 0 <= r < 4 ensures Row(n, r) == Row(g, r) {
        GameOverRow(g, r);
        ProcessFixed(Row(g, r), d == Left);
      }
      SameRows(n, g);
    } else {
      forall c | 0 <= c < 4 ensures Column(n, c) == Column(g, c) {
        GameOverColumn(g, c);
        ProcessFixed(Column(g, c), d == Up);
      }
      SameColumns(n, g);
    }
    SlideUnchanged(g, d);
  }

  /** A row that its slide changes makes the whole board change. */
  lemma RowChangeMovesBoard(g: Grid, r: nat, left: bool)
    requires r < 4
    requires Process(Row(g, r), left).cells != Row(g, r)
    ensures Slide(g, if left then Left else Right).grid != g
  {
    SlideByLines(g, if left then Left else Right);
  }

  /** A column that its slide changes makes the whole board change. */
  lemma ColumnChangeMovesBoard(g: Grid, c: nat, up: bool)
    requires c < 4
    requires Process(Column(g, c), up).cells != Column(g, c)
    ensures Slide(g, if up then Up else Down).grid != g
  {
    SlideByLines(g, if up then Up else Down);
  }

  /** A full line with two equal neighbours merges, so its slide differs. */
  lemma FullLineWithPairMoves(line: seq<nat>, left: bool, i: nat)
    requires |line| == 4 && forall k :: 0 <= k < 4 ==> line[k] != 0
    requires i < 3 && line[i] == line[i + 1]
    ensures Process(line, left).cells != line
  {
    assert Compact(line) == line;
    assert !NoAdjacentEqual(line);
    ProcessNoMerge(line, left);
    if Process(line, left).cells == line {
      ProcessUnchanged(line, left);
    }
  }

  /** Whenever the board is neither finished nor empty, some direction changes
      it. */
  lemma NotOverCanMove(g: Grid)
    requires !GameOver(g) && exists i :: 0 <= i < 16 && g[i] != 0
    ensures exists d :: Slide(g, d).grid != g
  {
    if forall i :: 0 <= i < 16 ==> g[i] != 0 {
      var r, c :| 0 <= r < 4 && 0 <= c < 4 && MergeableAt(g, r, c);
      if c < 3 && g[4 * r + c] == g[4 * r + c + 1] {
        FullLineWithPairMoves(Row(g, r), true, c);
        RowChangeMovesBoard(g, r, true);
      } else {
        FullLineWithPairMoves(Column(g, c), true, r);
        ColumnChangeMovesBoard(g, c, true);
      }
    } else {
      var z :| 0 <= z < 16 && g[z] == 0;
      var t :| 0 <= t < 16 && g[t] != 0;
      var rz, rt := z / 4, t / 4;
      assert Row(g, rz)[z % 4] == 0 && Row(g, rt)[t % 4] != 0;
      if exists k :: 0 <= k < 4 && Row(g, rz)[k] != 0 {
        PartialRowMoves(g, rz);
      } else if exists k :: 0 <= k < 4 && Row(g, rt)[k] == 0 {
        PartialRowMoves(g, rt);
      } else {
        // Row rz is empty and row rt is full, so column 0 holds both.
        assert Column(g, 0)[rz] == Row(g, rz)[0] == 0;
        assert Column(g, 0)[rt] == Row(g, rt)[0] != 0;
        ProcessMovesPartialLine(Column(g, 0));
        if Process(Column(g, 0), true).cells != Column(g, 0) {
          ColumnChangeMovesBoard(g, 0, true);
        } else {
          ColumnChangeMovesBoard(g, 0, false);
        }
      }
    }
  }

  lemma PartialRowMoves(g: Grid, r: nat)
    requires r < 4
    requires exists j :: 0 <= j < 4 && Row(g, r)[j] == 0
    requires exists j :: 0 <= j < 4 && Row(g, r)[j] != 0
    ensures Slide(g, Left).grid != g || Slide(g, Right).grid != g
  {
    ProcessMovesPartialLine(Row(g, r));
    if Process(Row(g, r), true).cells != Row(g, r) {
      RowChangeMovesBoard(g, r, true);
    } else {
      RowChangeMovesBoard(g, r, false);
    }
  }

  /** `isGameOver` is exact: a board holding at least one tile is over if and
      only if no direction would change it. */
  lemma GameOverExactly(g: Grid)
    requires exists i :: 0 <= i < 16 && g[i] != 0
    ensures GameOver(g) <==> forall d :: Slide(g, d).grid == g
  {
    if GameOver(g) {
      forall d ensures Slide(g, d).grid == g {
        GameOverIsStuck(g, d);
      }
    } else {
      NotOverCanMove(g);
    }
  }
}
