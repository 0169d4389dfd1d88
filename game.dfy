/** The game object: the board, the score, the largest tile merged so far and
    the leaderboard, with the methods that change them. */
module Game {
  import opened Line
  import opened Board
  import Spawn
  import opened Terminal
  import Leaderboard

  class Game2048 {
    var grid: Grid
    var score: nat
    var maxValue: nat
    var leaderboard: seq<Leaderboard.ScoreRecord>

    /** Every cell is empty or a tile, and `maxValue` is 0 or a tile. */
    ghost predicate Valid()
      reads this
    {
      AllTiles(grid) && IsTile(maxValue)
    }

    /** `new Game2048()`: a fresh board with two tiles, then the leaderboard
        read from storage (`stored`; an absent entry reads as `[]`). */
    constructor (stored: seq<Leaderboard.ScoreRecord>, where1: Spawn.Draw, value1: Spawn.Draw, where2: Spawn.Draw, value2: Spawn.Draw)
      ensures grid == Spawn.WithNewTile(Spawn.WithNewTile(EmptyGrid, where1, value1), where2, value2)
      ensures score == 0 && maxValue == 0
      ensures leaderboard == stored
      ensures Valid()
    {
      grid := EmptyGrid;
      score := 0;
      maxValue := 0;
      leaderboard := stored;
      new;
      Init(where1, value1, where2, value2);
    }

    /** The state reset of `init`: an empty board, no score, and two new
        tiles. The leaderboard is kept. */
    method Init(where1: Spawn.Draw, value1: Spawn.Draw, where2: Spawn.Draw, value2: Spawn.Draw)
      modifies this`grid, this`score, this`maxValue
      ensures grid == Spawn.WithNewTile(Spawn.WithNewTile(EmptyGrid, where1, value1), where2, value2)
      ensures score == 0 && maxValue == 0
      ensures Valid()
    {
      grid := EmptyGrid;
      score := 0;
      maxValue := 0;
      AddNewNumber(where1, value1);
      AddNewNumber(where2, value2);
      InitialTiles(where1, value1, where2, value2);
    }

    /** `addNewNumber`: collect the empty cells, then write a 2 or a 4 into
        the drawn one. */
    method AddNewNumber(where: Spawn.Draw, value: Spawn.Draw)
      modifies this`grid
      ensures grid == Spawn.WithNewTile(old(grid), where, value)
    {
      var emptyCells: seq<nat> := [];
      for idx := 0 to 16
        invariant emptyCells == Spawn.EmptyCells(grid[..idx])
      {
        assert grid[..idx + 1][..idx] == grid[..idx];
        if grid[idx] == 0 {
          emptyCells := emptyCells + [idx];
        }
      }
      assert grid[..16] == grid;
      if |emptyCells| > 0 {
        var randomCell := emptyCells[Spawn.PickIndex(where, |emptyCells|)];
        grid := grid[randomCell := Spawn.NewTileValue(value)];
      }
    }

    /** `processLine`: drop the zeros, merge equal neighbours scanning from
        the side the tiles move to, and pad back to four cells. Every merge
        adds its value to the score and may raise `maxValue`. */
    method ProcessLine(line: seq<nat>, leftDirection: bool) returns (numbers: seq<nat>)
      modifies this`score, this`maxValue
      ensures numbers == Process(line, leftDirection).cells
      ensures score == old(score) + Sum(Process(line, leftDirection).merges)
      ensures maxValue == MaxWith(old(maxValue), Process(line, leftDirection).merges)
    {
      numbers := Compact(line);
      if leftDirection {
        numbers := MergeForward(numbers);
      } else {
        numbers := MergeBackward(numbers);
      }
      ghost var merged := numbers;
      assert Padding(merged, numbers, leftDirection) by {
        assert numbers + Zeros(0) == numbers && Zeros(0) + numbers == numbers;
      }
      while |numbers| < Width
        invariant Padding(merged, numbers, leftDirection)
        invariant score == old(score) + Sum(Process(line, leftDirection).merges)
        invariant maxValue == MaxWith(old(maxValue), Process(line, leftDirection).merges)
        decreases Width - |numbers|
      {
        PadStep(merged, numbers, leftDirection);
        if leftDirection {
          numbers := numbers + [0];
        } else {
          numbers := [0] + numbers;
        }
      }
      PaddedLine(line, leftDirection, merged, numbers);
    }

    /** The forward scan of `processLine` for Left and Up: a tile equal to
        the next one doubles, the next one is spliced out, and the scan moves
        past the doubled tile. */
    method MergeForward(c: seq<nat>) returns (numbers: seq<nat>)
      modifies this`score, this`maxValue
      ensures numbers == MergeLeft(c).cells
      ensures score == old(score) + Sum(MergeLeft(c).merges)
      ensures maxValue == MaxWith(old(maxValue), MergeLeft(c).merges)
    {
      numbers := c;
      ghost var done: seq<nat> := [];
      var i := 0;
      while i < |numbers| - 1
        invariant LeftScan(c, numbers, i, done)
        invariant score == old(score) + Sum(done)
        invariant maxValue == MaxWith(old(maxValue), done)
        decreases |numbers| - i
      {
        if numbers[i] == numbers[i + 1] {
          var v := numbers[i] * 2;
          LeftScanMerge(c, numbers, i, done);
          Snoc(done, v, old(maxValue));
          numbers := numbers[..i] + [v] + numbers[i + 2..];
          score := score + v;
          maxValue := Max(maxValue, v);
          done := done + [v];
        } else {
          LeftScanKeep(c, numbers, i, done);
        }
        i := i + 1;
      }
      LeftScanEnd(c, numbers, i, done);
    }

    /** The backward scan of `processLine` for Right and Down: a tile equal to
        the one before it doubles and that one is spliced out, which moves the
        doubled tile one place down, where the next step compares it again. */
    method MergeBackward(c: seq<nat>) returns (numbers: seq<nat>)
      modifies this`score, this`maxValue
      ensures numbers == MergeRight(c).cells
      ensures score == old(score) + Sum(MergeRight(c).merges)
      ensures maxValue == MaxWith(old(maxValue), MergeRight(c).merges)
    {
      numbers := c;
      ghost var done: seq<nat> := [];
      var i := |numbers| - 1;
      RightScanStart(c);
      while i > 0
        invariant RightScan(c, numbers, i, done)
        invariant score == old(score) + Sum(done)
        invariant maxValue == MaxWith(old(maxValue), done)
      {
        if numbers[i] == numbers[i - 1] {
          var v := numbers[i] * 2;
          RightScanMerge(c, numbers, i, done);
          Snoc(done, v, old(maxValue));
          numbers := numbers[..i - 1] + [v] + numbers[i + 1..];
          score := score + v;
          maxValue := Max(maxValue, v);
          done := done + [v];
        } else {
          RightScanKeep(c, numbers, i, done);
        }
        i := i - 1;
      }
      RightScanEnd(c, numbers, i, done);
    }

    /** `lines.map(line => this.processLine(line, left))`. */
    method ProcessLines(lines: seq<seq<nat>>, left: bool) returns (out: seq<seq<nat>>)
      modifies this`score, this`maxValue
      ensures out == SlideLines(lines, left).lines
      ensures score == old(score) + Sum(SlideLines(lines, left).merges)
      ensures maxValue == MaxWith(old(maxValue), SlideLines(lines, left).merges)
    {
      out := [];
      for k := 0 to |lines|
        invariant out == SlideLines(lines[..k], left).lines
        invariant score == old(score) + Sum(SlideLines(lines[..k], left).merges)
        invariant maxValue == MaxWith(old(maxValue), SlideLines(lines[..k], left).merges)
      {
        var before := SlideLines(lines[..k], left).merges;
        var line := ProcessLine(lines[k], left);
        out := out + [line];
        assert lines[..k + 1][..k] == lines[..k];
        SumConcat(before, Process(lines[k], left).merges);
        MaxWithConcat(old(maxValue), before, Process(lines[k], left).merges);
      }
      assert lines[..|lines|] == lines;
    }

    /** `move(direction)`: slide the board, spawn a tile when some cell
        changed, and whenever the board is then over, commit the score. */
    method Move(direction: Direction, where: Spawn.Draw, value: Spawn.Draw, date: string) returns (moved: bool)
      modifies this
      ensures moved == (exists i :: 0 <= i < 16 && Slide(old(grid), direction).grid[i] != old(grid)[i])
      ensures grid == if moved then Spawn.WithNewTile(Slide(old(grid), direction).grid, where, value)
                      else Slide(old(grid), direction).grid
      ensures score == old(score) + Sum(Slide(old(grid), direction).merges)
      ensures maxValue == MaxWith(old(maxValue), Slide(old(grid), direction).merges)
      ensures leaderboard ==
                if GameOver(grid) then Leaderboard.Record(old(leaderboard), score, date) else old(leaderboard)
      ensures old(Valid()) ==> Valid()
    {
      moved := SlideAndSpawn(direction, where, value);
      CommitIfOver(date);
    }

    /** The board part of `move`: slide, then spawn when some cell changed. */
    method SlideAndSpawn(direction: Direction, where: Spawn.Draw, value: Spawn.Draw) returns (moved: bool)
      modifies this`grid, this`score, this`maxValue
      ensures moved == (exists i :: 0 <= i < 16 && Slide(old(grid), direction).grid[i] != old(grid)[i])
      ensures grid == if moved then Spawn.WithNewTile(Slide(old(grid), direction).grid, where, value)
                      else Slide(old(grid), direction).grid
      ensures score == old(score) + Sum(Slide(old(grid), direction).merges)
      ensures maxValue == MaxWith(old(maxValue), Slide(old(grid), direction).merges)
      ensures old(Valid()) ==> Valid()
    {
      ghost var valid := Valid();
      var oldGrid := grid;
      SlideGrid(direction);
      ghost var slid := grid;
      moved := !(forall index | 0 <= index < 16 :: grid[index] == oldGrid[index]);
      if valid {
        MoveKeepsTiles(oldGrid, direction, where, value, old(maxValue));
      }
      if moved {
        AddNewNumber(where, value);
      }
      assert grid == if moved then Spawn.WithNewTile(slid, where, value) else slid;
      assert valid ==> AllTiles(grid) && IsTile(maxValue);
    }

    /** The end of `move`: when no move is left, record the score. */
    method CommitIfOver(date: string)
      modifies this`leaderboard
      ensures leaderboard == if GameOver(grid) then Leaderboard.Record(old(leaderboard), score, date) else old(leaderboard)
    {
      var over := IsGameOver();
      if over {
        UpdateLeaderboard(score, date);
      }
    }

    /** The sliding part of `move`: split the board into rows, slide each row
        (for Up and Down, transpose first, slide the columns and transpose
        back), and flatten the rows into the board. */
    method SlideGrid(direction: Direction)
      modifies this`grid, this`score, this`maxValue
      ensures grid == Slide(old(grid), direction).grid
      ensures score == old(score) + Sum(Slide(old(grid), direction).merges)
      ensures maxValue == MaxWith(old(maxValue), Slide(old(grid), direction).merges)
    {
      var rows := SplitRows();
      if direction == Left || direction == Right {
        rows := ProcessLines(rows, direction == Left);
      } else {
        rows := ProcessColumns(rows, direction == Up);
      }
      grid := Flatten(rows);
    }

    /** The vertical branch of `move`: transpose the rows into columns, slide
        each column and transpose back. */
    method ProcessColumns(rows: seq<seq<nat>>, up: bool) returns (out: seq<seq<nat>>)
      requires IsSquare(rows)
      modifies this`score, this`maxValue
      ensures IsSquare(out)
      ensures out == Transpose(SlideLines(Transpose(rows), up).lines)
      ensures score == old(score) + Sum(SlideLines(Transpose(rows), up).merges)
      ensures maxValue == MaxWith(old(maxValue), SlideLines(Transpose(rows), up).merges)
    {
      var cols := Transpose(rows);
      cols := ProcessLines(cols, up);
      out := Transpose(cols);
    }

    /** The rows of the board, four cells each, as `move` slices them. */
    method SplitRows() returns (rows: seq<seq<nat>>)
      ensures rows == Rows(grid)
    {
      rows := [];
      for i := 0 to 4
        invariant |rows| == i
        invariant forall k :: 0 <= k < i ==> rows[k] == Row(grid, k)
      {
        rows := rows + [grid[i * 4 .. (i + 1) * 4]];
      }
    }

    /** `isGameOver`: no empty cell, and no cell equal to its right or lower
        neighbour. */
    method IsGameOver() returns (over: bool)
      ensures over == GameOver(grid)
    {
      if 0 in grid {
        return false;
      }
      for i := 0 to 4
        invariant forall r, c :: 0 <= r < i && 0 <= c < 4 ==> !MergeableAt(grid, r, c)
      {
        for j := 0 to 4
          invariant forall r, c :: 0 <= r < i && 0 <= c < 4 ==> !MergeableAt(grid, r, c)
          invariant forall c :: 0 <= c < j ==> !MergeableAt(grid, i, c)
        {
          var current := grid[i * 4 + j];
          if (j < 3 && current == grid[i * 4 + j + 1]) || (i < 3 && current == grid[(i + 1) * 4 + j]) {
            assert MergeableAt(grid, i, j);
            return false;
          }
        }
      }
      return true;
    }

    /** `updateLeaderboard(score)`: append the record, sort by descending
        score, keep the first ten. */
    method UpdateLeaderboard(s: nat, date: string)
      modifies this`leaderboard
      ensures leaderboard == Leaderboard.Record(old(leaderboard), s, date)
    {
      var newScore := Leaderboard.ScoreRecord(s, date);
      leaderboard := leaderboard + [newScore];
      leaderboard := Leaderboard.SortDesc(leaderboard);
      leaderboard := Leaderboard.Take(leaderboard, Leaderboard.Capacity);
    }

    /** The "new game" button: commit a positive score, then start over. */
    method NewGame(date: string, where1: Spawn.Draw, value1: Spawn.Draw, where2: Spawn.Draw, value2: Spawn.Draw)
      modifies this
      ensures leaderboard == if old(score) > 0 then Leaderboard.Record(old(leaderboard), old(score), date) else old(leaderboard)
      ensures grid == Spawn.WithNewTile(Spawn.WithNewTile(EmptyGrid, where1, value1), where2, value2)
      ensures score == 0 && maxValue == 0
      ensures Valid()
    {
      if score > 0 {
        UpdateLeaderboard(score, date);
      }
      Init(where1, value1, where2, value2);
    }

    /** The "restart" button: start over without committing the score. */
    method Restart(where1: Spawn.Draw, value1: Spawn.Draw, where2: Spawn.Draw, value2: Spawn.Draw)
      modifies this
      ensures leaderboard == old(leaderboard)
      ensures grid == Spawn.WithNewTile(Spawn.WithNewTile(EmptyGrid, where1, value1), where2, value2)
      ensures score == 0 && maxValue == 0
      ensures Valid()
    {
      Init(where1, value1, where2, value2);
    }
  }

  // ---------------------------------------------------------------------
  // The loops of `processLine`, step by step

  /** Appending one merge to the merges made so far. */
  lemma Snoc(done: seq<nat>, v: nat, m: nat)
    ensures Sum(done + [v]) == Sum(done) + v
    ensures MaxWith(m, done + [v]) == Max(MaxWith(m, done), v)
  {
    assert (done + [v])[..|done|] == done;
  }

  /** The forward scan has reached index `i`: the cells before `i` are final,
      and what is left to merge starts at `i`. */
  ghost predicate LeftScan(c: seq<nat>, numbers: seq<nat>, i: int, done: seq<nat>)
  {
    0 <= i <= |numbers| &&
    MergeLeft(c) == LineResult(numbers[..i] + MergeLeft(numbers[i..]).cells,
                               done + MergeLeft(numbers[i..]).merges)
  }

  lemma LeftScanMerge(c: seq<nat>, numbers: seq<nat>, i: int, done: seq<nat>)
    requires LeftScan(c, numbers, i, done) && i < |numbers| - 1 && numbers[i] == numbers[i + 1]
    ensures LeftScan(c, numbers[..i] + [numbers[i] * 2] + numbers[i + 2..], i + 1, done + [numbers[i] * 2])
  {
    var v := numbers[i] * 2;
    var n := numbers[..i] + [v] + numbers[i + 2..];
    var rest, tail := numbers[i..], numbers[i + 2..];
    assert rest[0] == rest[1] && rest[2..] == tail;
    var mt := MergeLeft(tail);
    assert MergeLeft(rest) == LineResult([v] + mt.cells, [v] + mt.merges);
    assert n[..i + 1] == numbers[..i] + [v];
    assert n[i + 1..] == tail;
    assert numbers[..i] + ([v] + mt.cells) == (numbers[..i] + [v]) + mt.cells;
    assert done + ([v] + mt.merges) == (done + [v]) + mt.merges;
  }

  lemma LeftScanKeep(c: seq<nat>, numbers: seq<nat>, i: int, done: seq<nat>)
    requires LeftScan(c, numbers, i, done) && i < |numbers| - 1 && numbers[i] != numbers[i + 1]
    ensures LeftScan(c, numbers, i + 1, done)
  {
    var rest, tail := numbers[i..], numbers[i + 1..];
    assert rest[0] != rest[1] && rest[1..] == tail;
    var mt := MergeLeft(tail);
    assert MergeLeft(rest) == LineResult([numbers[i]] + mt.cells, mt.merges);
    assert numbers[..i + 1] == numbers[..i] + [numbers[i]];
    assert numbers[..i] + ([numbers[i]] + mt.cells) == (numbers[..i] + [numbers[i]]) + mt.cells;
  }

  lemma LeftScanEnd(c: seq<nat>, numbers: seq<nat>, i: int, done: seq<nat>)
    requires LeftScan(c, numbers, i, done) && i >= |numbers| - 1
    ensures MergeLeft(c) == LineResult(numbers, done)
  {
    assert numbers[..i] + numbers[i..] == numbers;
  }

  /** The backward scan stands at index `i` with the tile `numbers[i]`: the
      cells after `i` are final, and `numbers[i]` is still to be compared with
      what lies before it. */
  ghost predicate RightScan(c: seq<nat>, numbers: seq<nat>, i: int, done: seq<nat>)
  {
    -1 <= i < |numbers| &&
    (i < 0 ==> numbers == [] && done == [] && c == []) &&
    (i >= 0 ==>
       MergeRight(c) ==
         LineResult(MergeRightFrom(numbers[..i], numbers[i]).cells + numbers[i + 1..],
                    done + MergeRightFrom(numbers[..i], numbers[i]).merges))
  }

  lemma RightScanStart(c: seq<nat>)
    ensures RightScan(c, c, |c| - 1, [])
  {
    if c != [] {
      assert c[|c|..] == [];
    }
  }

  lemma RightScanMerge(c: seq<nat>, numbers: seq<nat>, i: int, done: seq<nat>)
    requires RightScan(c, numbers, i, done) && i > 0 && numbers[i] == numbers[i - 1]
    ensures RightScan(c, numbers[..i - 1] + [numbers[i] * 2] + numbers[i + 1..], i - 1,
                      done + [numbers[i] * 2])
  {
    var v := numbers[i] * 2;
    var n := numbers[..i - 1] + [v] + numbers[i + 1..];
    var prefix := numbers[..i];
    assert prefix[..|prefix| - 1] == numbers[..i - 1] == n[..i - 1];
    assert n[i - 1] == v;
    assert n[i..] == numbers[i + 1..];
  }

  lemma RightScanKeep(c: seq<nat>, numbers: seq<nat>, i: int, done: seq<nat>)
    requires RightScan(c, numbers, i, done) && i > 0 && numbers[i] != numbers[i - 1]
    ensures RightScan(c, numbers, i - 1, done)
  {
    var prefix := numbers[..i];
    assert prefix[..|prefix| - 1] == numbers[..i - 1];
    assert numbers[i..] == [numbers[i]] + numbers[i + 1..];
  }

  lemma RightScanEnd(c: seq<nat>, numbers: seq<nat>, i: int, done: seq<nat>)
    requires RightScan(c, numbers, i, done) && i <= 0
    ensures MergeRight(c) == LineResult(numbers, done)
  {
    if i == 0 {
      assert numbers[..0] == [];
      assert [numbers[0]] + numbers[1..] == numbers;
    }
  }

  /** The padding loop so far: zeros added on the far side of `merged`. */
  ghost predicate Padding(merged: seq<nat>, numbers: seq<nat>, left: bool)
  {
    |numbers| >= |merged| &&
    (|merged| >= Width ==> numbers == merged) &&
    (|merged| < Width ==> |numbers| <= Width) &&
    (left ==> numbers == merged + Zeros(|numbers| - |merged|)) &&
    (!left ==> numbers == Zeros(|numbers| - |merged|) + merged)
  }

  lemma PadStep(merged: seq<nat>, numbers: seq<nat>, left: bool)
    requires Padding(merged, numbers, left) && |numbers| < Width
    ensures Padding(merged, if left then numbers + [0] else [0] + numbers, left)
  {
    assert Zeros(|numbers| - |merged|) + [0] == Zeros(|numbers| + 1 - |merged|);
    assert [0] + Zeros(|numbers| - |merged|) == Zeros(|numbers| + 1 - |merged|);
  }

  /** Once the padding loop stops, the line is what `Process` says. */
  lemma PaddedLine(line: seq<nat>, left: bool, merged: seq<nat>, numbers: seq<nat>)
    requires merged == Merge(Compact(line), left).cells
    requires Padding(merged, numbers, left) && |numbers| >= Width
    ensures numbers == Process(line, left).cells
  {
  }

  /** The board `init` makes holds only tiles. */
  lemma InitialTiles(where1: Spawn.Draw, value1: Spawn.Draw, where2: Spawn.Draw, value2: Spawn.Draw)
    ensures AllTiles(Spawn.WithNewTile(Spawn.WithNewTile(EmptyGrid, where1, value1), where2, value2))
  {
    assert AllTiles(EmptyGrid);
    Spawn.SpawnTiles(EmptyGrid, where1, value1);
    Spawn.SpawnTiles(Spawn.WithNewTile(EmptyGrid, where1, value1), where2, value2);
  }

  /** A move keeps every cell a tile or empty, and `maxValue` a tile or 0. */
  lemma MoveKeepsTiles(g: Grid, d: Direction, where: Spawn.Draw, value: Spawn.Draw, maxValue: nat)
    requires AllTiles(g) && IsTile(maxValue)
    ensures AllTiles(Slide(g, d).grid) && AllTiles(Spawn.WithNewTile(Slide(g, d).grid, where, value))
    ensures IsTile(MaxWith(maxValue, Slide(g, d).merges))
  {
    SlideTiles(g, d);
    Spawn.SpawnTiles(Slide(g, d).grid, where, value);
    MaxWithTiles(maxValue, Slide(g, d).merges);
  }

  /** When `moved` comes out false the slide changed nothing: the board is
      the old one and no merge was scored. */
  lemma UnmovedChangesNothing(g: Grid, d: Direction)
    requires forall i :: 0 <= i < 16 ==> Slide(g, d).grid[i] == g[i]
    ensures Slide(g, d).grid == g
    ensures Slide(g, d).merges == []
  {
    assert Slide(g, d).grid == g;
    SlideUnchanged(g, d);
  }

  /** The tiles on the board add up to the same total after a slide; a move
      that changes the board then adds exactly the spawned 2 or 4. */
  lemma MoveTotal(g: Grid, d: Direction, where: Spawn.Draw, value: Spawn.Draw)
    ensures var m := Slide(g, d).grid;
            Sum(if m != g then Spawn.WithNewTile(m, where, value) else m) ==
              Sum(g) + (if m != g then Spawn.NewTileValue(value) else 0)
  {
    var m := Slide(g, d).grid;
    SlideSum(g, d);
    if m != g {
      SlideLeavesRoom(g, d);
      Spawn.EmptyCellsExist(m);
      Spawn.SpawnSum(m, where, value);
    }
  }

  /** `Math.max` over tiles stays a tile. */
  lemma MaxWithTiles(m: nat, s: seq<nat>)
    requires IsTile(m) && AllTiles(s)
    ensures IsTile(MaxWith(m, s))
  {
    var r := MaxWith(m, s);
    if r != m {
      var k :| 0 <= k < |s| && s[k] == r;
    }
  }
}
