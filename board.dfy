/** The 4x4 board of flat cells and the whole-board part of a move:
    splitting into rows, transposing for vertical moves and sliding every
    line. */
module Board {
  import opened Line

  /** The sixteen cells, row by row: cell `4 * r + c` is row r, column c. */
  type Grid = g: seq<nat> | |g| == 16 witness seq(16, _ => 0)

  /** The board of a fresh game (`Array(16).fill(0)`). */
  const EmptyGrid: Grid := seq(16, _ => 0)

  datatype Direction = Up | Down | Left | Right

  /** A move once every line has been slid: the new board and the value of
      every merge, in the order they were made. */
  datatype MoveResult = MoveResult(grid: Grid, merges: seq<nat>)

  /** Lines of a slide in progress, with the merges made so far. */
  datatype Slid = Slid(lines: seq<seq<nat>>, merges: seq<nat>)

  /** Four lines of four cells. */
  ghost predicate IsSquare(m: seq<seq<nat>>)
  {
    |m| == 4 && forall i :: 0 <= i < 4 ==> |m[i]| == 4
  }

  /** Row `r` (`grid.slice(r * 4, (r + 1) * 4)`). */
  function Row(g: Grid, r: nat): seq<nat>
    requires r < 4
  {
    g[4 * r .. 4 * r + 4]
  }

  /** Column `c`, top to bottom. */
  function Column(g: Grid, c: nat): seq<nat>
    requires c < 4
  {
    seq(4, r requires 0 <= r < 4 => g[4 * r + c])
  }

  function Rows(g: Grid): (rows: seq<seq<nat>>)
    ensures IsSquare(rows)
  {
    seq(4, r requires 0 <= r < 4 => Row(g, r))
  }

  /** `m[0].map((_, i) => m.map(row => row[i]))`: line i of the result holds
      entry i of every line of `m`. */
  function Transpose(m: seq<seq<nat>>): (t: seq<seq<nat>>)
    requires |m| > 0 && forall r :: 0 <= r < |m| ==> |m[r]| == |m[0]|
    ensures |t| == |m[0]|
    ensures forall i :: 0 <= i < |t| ==> |t[i]| == |m|
  {
    seq(|m[0]|, i requires 0 <= i < |m[0]| => seq(|m|, r requires 0 <= r < |m| => m[r][i]))
  }

  /** `rows.flat()` for four rows of four cells. */
  function Flatten(rows: seq<seq<nat>>): Grid
    requires IsSquare(rows)
  {
    rows[0] + rows[1] + rows[2] + rows[3]
  }

  /** `lines.map(line => this.processLine(line, left))`, collecting the merge
      values line after line. */
  function SlideLines(lines: seq<seq<nat>>, left: bool): (r: Slid)
    ensures |r.lines| == |lines|
    ensures forall i :: 0 <= i < |lines| ==> r.lines[i] == Process(lines[i], left).cells
  {
    if lines == [] then Slid([], [])
    else
      var front := SlideLines(lines[..|lines| - 1], left);
      var last := Process(lines[|lines| - 1], left);
      Slid(front.lines + [last.cells], front.merges + last.merges)
  }

  /** The board and merges `move(d)` produces before it spawns: rows are slid
      for Left and Right; for Up and Down the board is transposed, its lines
      (the columns) slid, and transposed back. */
  function Slide(g: Grid, d: Direction): MoveResult
  {
    var rows := Rows(g);
    if d == Left || d == Right then
      var s := SlideLines(rows, d == Left);
      MoveResult(Flatten(s.lines), s.merges)
    else
      var s := SlideLines(Transpose(rows), d == Up);
      MoveResult(Flatten(Transpose(s.lines)), s.merges)
  }

  // ---------------------------------------------------------------------
  // Rows, columns and transposition

  /** Transposing twice gives back the matrix. */
  lemma TransposeTwice(m: seq<seq<nat>>)
    requires |m| > 0 && |m[0]| > 0 && forall r :: 0 <= r < |m| ==> |m[r]| == |m[0]|
    ensures Transpose(Transpose(m)) == m
  {
    var t := Transpose(m);
    var tt := Transpose(t);
    assert |tt| == |m|;
    forall r | 0 <= r < |m| ensures tt[r] == m[r] {
      assert |tt[r]| == |m[r]|;
      forall i | 0 <= i < |m[r]| ensures tt[r][i] == m[r][i] {
        assert tt[r][i] == t[i][r] == m[r][i];
      }
    }
  }

  /** Splitting a board into rows and flattening them back is the identity. */
  lemma FlattenRows(g: Grid)
    ensures Flatten(Rows(g)) == g
  {
    assert g[..4] + g[4..8] + g[8..12] + g[12..] == g;
  }

  /** The rows of a flattened matrix are its lines. */
  lemma RowsOfFlatten(m: seq<seq<nat>>)
    requires IsSquare(m)
    ensures forall r :: 0 <= r < 4 ==> Row(Flatten(m), r) == m[r]
  {
    var f := Flatten(m);
    assert f[0..4] == m[0];
    assert f[4..8] == m[1];
    assert f[8..12] == m[2];
    assert f[12..16] == m[3];
  }

  /** The columns of a flattened matrix are the lines of its transpose. */
  lemma ColumnsOfFlatten(m: seq<seq<nat>>)
    requires IsSquare(m)
    ensures IsSquare(Transpose(m))
    ensures forall c :: 0 <= c < 4 ==> Column(Flatten(Transpose(m)), c) == m[c]
  {
    var t := Transpose(m);
    RowsOfFlatten(t);
    forall c | 0 <= c < 4 ensures Column(Flatten(t), c) == m[c] {
      forall r | 0 <= r < 4 ensures Column(Flatten(t), c)[r] == m[c][r] {
        assert Column(Flatten(t), c)[r] == Row(Flatten(t), r)[c];
      }
    }
  }

  /** The lines of the transposed board are its columns. */
  lemma TransposeRows(g: Grid)
    ensures forall c :: 0 <= c < 4 ==> Transpose(Rows(g))[c] == Column(g, c)
  {
  }

  /** Two boards with the same rows are the same board. */
  lemma SameRows(a: Grid, b: Grid)
    requires forall r :: 0 <= r < 4 ==> Row(a, r) == Row(b, r)
    ensures a == b
  {
    forall k | 0 <= k < 16 ensures a[k] == b[k] {
      var r := k / 4;
      assert Row(a, r)[k - 4 * r] == Row(b, r)[k - 4 * r];
    }
  }

  /** Two boards with the same columns are the same board. */
  lemma SameColumns(a: Grid, b: Grid)
    requires forall c :: 0 <= c < 4 ==> Column(a, c) == Column(b, c)
    ensures a == b
  {
    forall k | 0 <= k < 16 ensures a[k] == b[k] {
      var c := k % 4;
      assert Column(a, c)[k / 4] == Column(b, c)[k / 4];
    }
  }

  /** Every row of `n` is the matching row of `g` slid. */
  ghost predicate RowsSlid(g: Grid, n: Grid, left: bool)
  {
    forall r :: 0 <= r < 4 ==> Row(n, r) == Process(Row(g, r), left).cells
  }

  /** Every column of `n` is the matching column of `g` slid. */
  ghost predicate ColumnsSlid(g: Grid, n: Grid, up: bool)
  {
    forall c :: 0 <= c < 4 ==> Column(n, c) == Process(Column(g, c), up).cells
  }

  /** A slid board line by line: for Left and Right each row is that row of
      the old board slid; for Up and Down each column is that column slid.
      So vertical moves are column-wise `processLine`. */
  lemma SlideByLines(g: Grid, d: Direction)
    ensures d == Left || d == Right ==> RowsSlid(g, Slide(g, d).grid, d == Left)
    ensures d == Up || d == Down ==> ColumnsSlid(g, Slide(g, d).grid, d == Up)
  {
    if d == Left || d == Right {
      var s := SlideLines(Rows(g), d == Left);
      RowsOfFlatten(s.lines);
    } else {
      TransposeRows(g);
      var s := SlideLines(Transpose(Rows(g)), d == Up);
      ColumnsOfFlatten(s.lines);
    }
  }

  /** The merges of four lines slid in turn, in order. */
  lemma SlideLinesFour(lines: seq<seq<nat>>, left: bool)
    requires |lines| == 4
    ensures SlideLines(lines, left).merges ==
              Process(lines[0], left).merges + Process(lines[1], left).merges +
              Process(lines[2], left).merges + Process(lines[3], left).merges
  {
    var l3, l2, l1 := lines[..3], lines[..2], lines[..1];
    assert l3[..2] == l2 && l2[..1] == l1 && l1[..0] == [];
    assert SlideLines(l1, left).merges == Process(lines[0], left).merges;
    assert SlideLines(l2, left).merges == SlideLines(l1, left).merges + Process(lines[1], left).merges;
    assert SlideLines(l3, left).merges == SlideLines(l2, left).merges + Process(lines[2], left).merges;
    assert SlideLines(lines, left).merges == SlideLines(l3, left).merges + Process(lines[3], left).merges;
  }

  /** The merges of the four rows, top to bottom. */
  function RowMerges(g: Grid, left: bool): seq<nat>
  {
    Process(Row(g, 0), left).merges + Process(Row(g, 1), left).merges +
    Process(Row(g, 2), left).merges + Process(Row(g, 3), left).merges
  }

  /** The merges of the four columns, left to right. */
  function ColumnMerges(g: Grid, up: bool): seq<nat>
  {
    Process(Column(g, 0), up).merges + Process(Column(g, 1), up).merges +
    Process(Column(g, 2), up).merges + Process(Column(g, 3), up).merges
  }

  /** The merges of a slide are those of its four lines, in order: rows top
      to bottom, or columns left to right. */
  lemma SlideMerges(g: Grid, d: Direction)
    ensures d == Left || d == Right ==> Slide(g, d).merges == RowMerges(g, d == Left)
    ensures d == Up || d == Down ==> Slide(g, d).merges == ColumnMerges(g, d == Up)
  {
    if d == Left || d == Right {
      SlideLinesFour(Rows(g), d == Left);
    } else {
      TransposeRows(g);
      SlideLinesFour(Transpose(Rows(g)), d == Up);
    }
  }

  // ---------------------------------------------------------------------
  // What a slide does to the whole board, line by line

  lemma RowsUnchanged(g: Grid, left: bool)
    requires RowsSlid(g, g, left)
    ensures RowMerges(g, left) == []
  {
    forall r | 0 <= r < 4 ensures Process(Row(g, r), left).merges == [] {
      ProcessUnchanged(Row(g, r), left);
    }
  }

  lemma ColumnsUnchanged(g: Grid, up: bool)
    requires ColumnsSlid(g, g, up)
    ensures ColumnMerges(g, up) == []
  {
    forall c | 0 <= c < 4 ensures Process(Column(g, c), up).merges == [] {
      ProcessUnchanged(Column(g, c), up);
    }
  }

  lemma RowsFull(g: Grid, n: Grid, left: bool)
    requires RowsSlid(g, n, left)
    requires forall k :: 0 <= k < 16 ==> n[k] != 0
    ensures n == g
  {
    forall r | 0 <= r < 4 ensures Row(n, r) == Row(g, r) {
      assert forall c :: 0 <= c < 4 ==> Row(n, r)[c] == n[4 * r + c];
      ProcessFull(Row(g, r), left);
    }
    SameRows(n, g);
  }

  lemma ColumnsFull(g: Grid, n: Grid, up: bool)
    requires ColumnsSlid(g, n, up)
    requires forall k :: 0 <= k < 16 ==> n[k] != 0
    ensures n == g
  {
    forall c | 0 <= c < 4 ensures Column(n, c) == Column(g, c) {
      ProcessFull(Column(g, c), up);
    }
    SameColumns(n, g);
  }

  lemma RowsTiles(g: Grid, n: Grid, left: bool)
    requires RowsSlid(g, n, left) && AllTiles(g)
    ensures AllTiles(n) && AllTiles(RowMerges(g, left))
  {
    forall r | 0 <= r < 4 ensures AllTiles(Row(n, r)) && AllTiles(Process(Row(g, r), left).merges) {
      LineTiles(Row(g, r), Row(n, r), left);
    }
    TilesByRows(n);
    FourTiles(Process(Row(g, 0), left).merges, Process(Row(g, 1), left).merges,
              Process(Row(g, 2), left).merges, Process(Row(g, 3), left).merges);
  }

  lemma ColumnsTiles(g: Grid, n: Grid, up: bool)
    requires ColumnsSlid(g, n, up) && AllTiles(g)
    ensures AllTiles(n) && AllTiles(ColumnMerges(g, up))
  {
    forall c | 0 <= c < 4 ensures AllTiles(Column(n, c)) && AllTiles(Process(Column(g, c), up).merges) {
      LineTiles(Column(g, c), Column(n, c), up);
    }
    TilesByColumns(n);
    FourTiles(Process(Column(g, 0), up).merges, Process(Column(g, 1), up).merges,
              Process(Column(g, 2), up).merges, Process(Column(g, 3), up).merges);
  }

  /** One line of a board of tiles, slid. Stated on its own so that the
      `forall` bodies of `RowsTiles` and `ColumnsTiles` reason about one line
      at a time, without the slices of the whole board in view. */
  lemma LineTiles(line: seq<nat>, slid: seq<nat>, left: bool)
    requires slid == Process(line, left).cells
    requires AllTiles(line)
    ensures AllTiles(slid) && AllTiles(Process(line, left).merges)
  {
    ProcessTiles(line, left);
  }

  /** A board whose every row holds tiles holds tiles. */
  lemma TilesByRows(n: Grid)
    requires forall r :: 0 <= r < 4 ==> AllTiles(Row(n, r))
    ensures AllTiles(n)
  {
    forall k | 0 <= k < 16 ensures IsTile(n[k]) {
      assert n[k] == Row(n, k / 4)[k % 4];
    }
  }

  /** A board whose every column holds tiles holds tiles. */
  lemma TilesByColumns(n: Grid)
    requires forall c :: 0 <= c < 4 ==> AllTiles(Column(n, c))
    ensures AllTiles(n)
  {
    forall k | 0 <= k < 16 ensures IsTile(n[k]) {
      assert n[k] == Column(n, k % 4)[k / 4];
    }
  }

  lemma FourTiles(a: seq<nat>, b: seq<nat>, c: seq<nat>, d: seq<nat>)
    requires AllTiles(a) && AllTiles(b) && AllTiles(c) && AllTiles(d)
    ensures AllTiles(a + b + c + d)
  {
    AllTilesConcat(a, b);
    AllTilesConcat(a + b, c);
    AllTilesConcat(a + b + c, d);
  }

  // ---------------------------------------------------------------------
  // What a slide does to the whole board

  /** A move that leaves the board as it was merged nothing, so it scores
      nothing and leaves the running maximum alone. */
  lemma SlideUnchanged(g: Grid, d: Direction)
    requires Slide(g, d).grid == g
    ensures Slide(g, d).merges == []
  {
    SlideByLines(g, d);
    SlideMerges(g, d);
    if d == Left || d == Right {
      RowsUnchanged(g, d == Left);
    } else {
      ColumnsUnchanged(g, d == Up);
    }
  }

  /** A move that changes the board always leaves an empty cell behind, so
      the spawn that follows it always places a tile. */
  lemma SlideLeavesRoom(g: Grid, d: Direction)
    requires Slide(g, d).grid != g
    ensures exists k :: 0 <= k < 16 && Slide(g, d).grid[k] == 0
  {
    var n := Slide(g, d).grid;
    if forall k :: 0 <= k < 16 ==> n[k] != 0 {
      SlideByLines(g, d);
      if d == Left || d == Right {
        RowsFull(g, n, d == Left);
      } else {
        ColumnsFull(g, n, d == Up);
      }
    }
  }

  /** Sliding keeps every cell empty or a power of two, and every merge value
      is a power of two. */
  lemma SlideTiles(g: Grid, d: Direction)
    requires AllTiles(g)
    ensures AllTiles(Slide(g, d).grid) && AllTiles(Slide(g, d).merges)
  {
    SlideByLines(g, d);
    SlideMerges(g, d);
    if d == Left || d == Right {
      RowsTiles(g, Slide(g, d).grid, d == Left);
    } else {
      ColumnsTiles(g, Slide(g, d).grid, d == Up);
    }
  }

  // ---------------------------------------------------------------------
  // The total of the tiles

  lemma SumOfFour(s: seq<nat>)
    requires |s| == 4
    ensures Sum(s) == s[0] + s[1] + s[2] + s[3]
  {
    var s3, s2, s1 := s[..3], s[..2], s[..1];
    assert s3[..2] == s2 && s2[..1] == s1 && s1[..0] == [];
    assert Sum(s1) == s[0];
    assert Sum(s2) == Sum(s1) + s[1];
    assert Sum(s3) == Sum(s2) + s[2];
  }

  /** The total of a board, added up by rows or by columns. */
  lemma SumByLines(g: Grid)
    ensures Sum(g) == Sum(Row(g, 0)) + Sum(Row(g, 1)) + Sum(Row(g, 2)) + Sum(Row(g, 3))
    ensures Sum(g) == Sum(Column(g, 0)) + Sum(Column(g, 1)) + Sum(Column(g, 2)) + Sum(Column(g, 3))
  {
    var r0, r1, r2, r3 := Row(g, 0), Row(g, 1), Row(g, 2), Row(g, 3);
    assert g == r0 + r1 + r2 + r3;
    SumConcat(r0, r1);
    SumConcat(r0 + r1, r2);
    SumConcat(r0 + r1 + r2, r3);
    SumOfFour(r0); SumOfFour(r1); SumOfFour(r2); SumOfFour(r3);
    SumOfFour(Column(g, 0)); SumOfFour(Column(g, 1));
    SumOfFour(Column(g, 2)); SumOfFour(Column(g, 3));
  }

  lemma RowsSum(g: Grid, n: Grid, left: bool)
    requires RowsSlid(g, n, left)
    ensures Sum(n) == Sum(g)
  {
    SumByLines(g);
    SumByLines(n);
    ProcessSum(Row(g, 0), left); ProcessSum(Row(g, 1), left);
    ProcessSum(Row(g, 2), left); ProcessSum(Row(g, 3), left);
  }

  lemma ColumnsSum(g: Grid, n: Grid, up: bool)
    requires ColumnsSlid(g, n, up)
    ensures Sum(n) == Sum(g)
  {
    SumByLines(g);
    SumByLines(n);
    ProcessSum(Column(g, 0), up); ProcessSum(Column(g, 1), up);
    ProcessSum(Column(g, 2), up); ProcessSum(Column(g, 3), up);
  }

  /** Sliding keeps the total of the tiles: merging two tiles into their sum
      loses nothing. */
  lemma SlideSum(g: Grid, d: Direction)
    ensures Sum(Slide(g, d).grid) == Sum(g)
  {
    SlideByLines(g, d);
    if d == Left || d == Right {
      RowsSum(g, Slide(g, d).grid, d == Left);
    } else {
      ColumnsSum(g, Slide(g, d).grid, d == Up);
    }
  }

  // ---------------------------------------------------------------------
  // The number of tiles

  /** 1 for a tile, 0 for an empty cell. */
  function Filled(x: nat): nat
  {
    if x == 0 then 0 else 1
  }

  lemma CountOfFour(s: seq<nat>)
    requires |s| == 4
    ensures |Compact(s)| == Filled(s[0]) + Filled(s[1]) + Filled(s[2]) + Filled(s[3])
  {
    var s3, s2, s1 := s[..3], s[..2], s[..1];
    assert s3[..2] == s2 && s2[..1] == s1 && s1[..0] == [];
    assert |Compact(s1)| == Filled(s[0]);
    assert |Compact(s2)| == |Compact(s1)| + Filled(s[1]);
    assert |Compact(s3)| == |Compact(s2)| + Filled(s[2]);
  }

  /** The tiles of a board, counted by rows or by columns. */
  lemma CountByLines(g: Grid)
    ensures |Compact(g)| == |Compact(Row(g, 0))| + |Compact(Row(g, 1))| +
                            |Compact(Row(g, 2))| + |Compact(Row(g, 3))|
    ensures |Compact(g)| == |Compact(Column(g, 0))| + |Compact(Column(g, 1))| +
                            |Compact(Column(g, 2))| + |Compact(Column(g, 3))|
  {
    var r0, r1, r2, r3 := Row(g, 0), Row(g, 1), Row(g, 2), Row(g, 3);
    assert g == r0 + r1 + r2 + r3;
    CompactConcat(r0, r1);
    CompactConcat(r0 + r1, r2);
    CompactConcat(r0 + r1 + r2, r3);
    CountOfFour(r0); CountOfFour(r1); CountOfFour(r2); CountOfFour(r3);
    CountOfFour(Column(g, 0)); CountOfFour(Column(g, 1));
    CountOfFour(Column(g, 2)); CountOfFour(Column(g, 3));
  }

  lemma RowsCount(g: Grid, n: Grid, left: bool)
    requires RowsSlid(g, n, left)
    ensures |Compact(n)| + |RowMerges(g, left)| == |Compact(g)|
  {
    CountByLines(g);
    CountByLines(n);
    ProcessPacked(Row(g, 0), left); ProcessPacked(Row(g, 1), left);
    ProcessPacked(Row(g, 2), left); ProcessPacked(Row(g, 3), left);
  }

  lemma ColumnsCount(g: Grid, n: Grid, up: bool)
    requires ColumnsSlid(g, n, up)
    ensures |Compact(n)| + |ColumnMerges(g, up)| == |Compact(g)|
  {
    CountByLines(g);
    CountByLines(n);
    ProcessPacked(Column(g, 0), up); ProcessPacked(Column(g, 1), up);
    ProcessPacked(Column(g, 2), up); ProcessPacked(Column(g, 3), up);
  }

  /** Every merge of a move turns two tiles into one: the board loses exactly
      one tile per merge. */
  lemma SlideCount(g: Grid, d: Direction)
    ensures |Compact(Slide(g, d).grid)| + |Slide(g, d).merges| == |Compact(g)|
  {
    SlideByLines(g, d);
    SlideMerges(g, d);
    if d == Left || d == Right {
      RowsCount(g, Slide(g, d).grid, d == Left);
    } else {
      ColumnsCount(g, Slide(g, d).grid, d == Up);
    }
  }

  // ---------------------------------------------------------------------
  // A worked board

  /** A board whose only tiles are `[2,2]` at the start of the top row, moved
      left: the top row becomes `[4,0,0,0]`, every other cell stays empty,
      and the one merge is worth 4. */
  lemma MoveLeftExample(g: Grid)
    requires Row(g, 0) == [2, 2, 0, 0]
    requires forall i :: 4 <= i < 16 ==> g[i] == 0
    ensures Row(Slide(g, Left).grid, 0) == [4, 0, 0, 0]
    ensures forall i :: 4 <= i < 16 ==> Slide(g, Left).grid[i] == 0
    ensures Slide(g, Left).merges == [4]
  {
    var n := Slide(g, Left).grid;
    SlideByLines(g, Left);
    SlideMerges(g, Left);
    PairLeftExample(Row(g, 0));
    LowerRowsEmpty(g);
    EmptyLineExample(Row(g, 1), true);
    EmptyLineExample(Row(g, 2), true);
    EmptyLineExample(Row(g, 3), true);
    assert Row(n, 1) == Row(n, 2) == Row(n, 3) == [0, 0, 0, 0];
    LowerRowsEmpty(n);
  }

  /** The cells below the top row are empty exactly when rows 1 to 3 are. */
  lemma LowerRowsEmpty(g: Grid)
    ensures (forall i :: 4 <= i < 16 ==> g[i] == 0) <==>
            Row(g, 1) == Row(g, 2) == Row(g, 3) == [0, 0, 0, 0]
  {
    if forall i :: 4 <= i < 16 ==> g[i] == 0 {
      assert Row(g, 1) == [g[4], g[5], g[6], g[7]];
      assert Row(g, 2) == [g[8], g[9], g[10], g[11]];
      assert Row(g, 3) == [g[12], g[13], g[14], g[15]];
    }
    if Row(g, 1) == Row(g, 2) == Row(g, 3) == [0, 0, 0, 0] {
      forall i | 4 <= i < 16 ensures g[i] == 0 {
        if i < 8 { assert g[i] == Row(g, 1)[i - 4]; }
        else if i < 12 { assert g[i] == Row(g, 2)[i - 8]; }
        else { assert g[i] == Row(g, 3)[i - 12]; }
      }
    }
  }
}
