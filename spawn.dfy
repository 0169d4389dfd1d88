/** Placing a new tile on the board (`addNewNumber`). The two calls to
    `Math.random()` are parameters: a draw in [0, 1) that picks the cell and
    a draw in [0, 1) that picks the value. */
module Spawn {
  import opened Line
  import opened Board

  /** A value `Math.random()` can return. */
  type Draw = r: real | 0.0 <= r < 1.0 witness 0.0

  /** The indices of the empty cells in increasing order (the `reduce` that
      collects `emptyCells`). */
  function EmptyCells(g: seq<nat>): (e: seq<nat>)
    ensures |e| <= |g|
    ensures forall k :: 0 <= k < |e| ==> e[k] < |g| && g[e[k]] == 0
    ensures forall i :: 0 <= i < |g| && g[i] == 0 ==> i in e
    ensures forall k, l :: 0 <= k < l < |e| ==> e[k] < e[l]
  {
    if g == [] then []
    else
      var front := EmptyCells(g[..|g| - 1]);
      front + (if g[|g| - 1] == 0 then [|g| - 1] else [])
  }

  /** `Math.floor(r * n)`: the position in a list of `n` that a draw selects.
      The product is exact here; JavaScript rounds it to a double first,
      which for a few draws just below a multiple of 1/n gives the next
      position. */
  function PickIndex(r: Draw, n: nat): (k: nat)
    requires n > 0
    ensures k < n
  {
    var x := r * (n as real);
    assert x < n as real by {
      assert r * (n as real) < 1.0 * (n as real);
    }
    x.Floor
  }

  /** `Math.random() < 0.9 ? 2 : 4`. */
  function NewTileValue(r: Draw): (v: nat)
    ensures v == 2 || v == 4
    ensures v == 2 <==> r < 0.9
  {
    if r < 0.9 then 2 else 4
  }

  /** The cell a spawn on `g` fills, when `g` has an empty cell. */
  function SpawnCell(g: Grid, where: Draw): (k: nat)
    requires EmptyCells(g) != []
    ensures k < 16 && g[k] == 0
  {
    var e := EmptyCells(g);
    e[PickIndex(where, |e|)]
  }

  /** The board after `addNewNumber`: when some cell is empty, the drawn one
      receives a new tile; a full board is left alone. */
  function WithNewTile(g: Grid, where: Draw, value: Draw): Grid
  {
    if EmptyCells(g) == [] then g else g[SpawnCell(g, where) := NewTileValue(value)]
  }

  lemma {:induction false} EmptyCellsOfZeros(n: nat)
    ensures EmptyCells(Zeros(n)) == seq(n, i => i)
  {
    if n > 0 {
      assert Zeros(n)[..n - 1] == Zeros(n - 1);
      EmptyCellsOfZeros(n - 1);
      assert seq(n - 1, i => i) + [n - 1] == seq(n, i => i);
    }
  }

  /** Filling one empty cell removes exactly that cell from the empty list. */
  lemma {:induction false} EmptyCellsFill(g: seq<nat>, k: nat, v: nat)
    requires k < |g| && g[k] == 0 && v != 0
    ensures |EmptyCells(g[k := v])| == |EmptyCells(g)| - 1
    decreases |g|
  {
    var h := g[k := v];
    if k < |g| - 1 {
      assert h[..|h| - 1] == g[..|g| - 1][k := v];
      EmptyCellsFill(g[..|g| - 1], k, v);
    } else {
      assert h[..|h| - 1] == g[..|g| - 1];
    }
  }

  /** A board has an empty cell exactly when its empty-cell list is non-empty. */
  lemma EmptyCellsExist(g: Grid)
    ensures EmptyCells(g) != [] <==> exists i :: 0 <= i < 16 && g[i] == 0
  {
    var e := EmptyCells(g);
    if e != [] {
      assert g[e[0]] == 0;
    }
  }

  /** `addNewNumber` on a full board changes nothing; otherwise one cell that
      was empty becomes 2 or 4, no other cell changes, and one empty cell
      fewer remains. */
  lemma SpawnEffect(g: Grid, where: Draw, value: Draw)
    ensures (forall i :: 0 <= i < 16 ==> g[i] != 0) ==> WithNewTile(g, where, value) == g
    ensures (exists i :: 0 <= i < 16 && g[i] == 0) ==>
              exists k :: 0 <= k < 16 && g[k] == 0 &&
                WithNewTile(g, where, value) == g[k := NewTileValue(value)] &&
                |EmptyCells(WithNewTile(g, where, value))| == |EmptyCells(g)| - 1
  {
    EmptyCellsExist(g);
    if EmptyCells(g) != [] {
      var k := SpawnCell(g, where);
      var v := NewTileValue(value);
      assert WithNewTile(g, where, value) == g[k := v];
      EmptyCellsFill(g, k, v);
    } else {
      assert WithNewTile(g, where, value) == g;
    }
  }

  /** A spawned tile is a power of two, so a board of tiles stays one. */
  lemma SpawnTiles(g: Grid, where: Draw, value: Draw)
    requires AllTiles(g)
    ensures AllTiles(WithNewTile(g, where, value))
  {
    assert IsTile(NewTileValue(value)) by {
      assert IsPow2(2);
      assert IsPow2(4) by { assert 4 / 2 == 2; }
    }
  }

  lemma {:induction false} SumFill(g: seq<nat>, k: nat, v: nat)
    requires k < |g| && g[k] == 0
    ensures Sum(g[k := v]) == Sum(g) + v
    decreases |g|
  {
    var h := g[k := v];
    if k < |g| - 1 {
      assert h[..|h| - 1] == g[..|g| - 1][k := v];
      SumFill(g[..|g| - 1], k, v);
    } else {
      assert h[..|h| - 1] == g[..|g| - 1];
    }
  }

  /** A spawn raises the total of the tiles by the new tile's value, or by
      nothing on a full board. */
  lemma SpawnSum(g: Grid, where: Draw, value: Draw)
    ensures Sum(WithNewTile(g, where, value)) ==
              Sum(g) + (if EmptyCells(g) == [] then 0 else NewTileValue(value))
  {
    if EmptyCells(g) != [] {
      SumFill(g, SpawnCell(g, where), NewTileValue(value));
    }
  }

  /** On a board of empty cells every cell is listed. */
  lemma {:induction false} EmptyCellsAllEmpty(g: seq<nat>)
    requires forall i :: 0 <= i < |g| ==> g[i] == 0
    ensures |EmptyCells(g)| == |g|
  {
    if g != [] {
      EmptyCellsAllEmpty(g[..|g| - 1]);
    }
  }

  /** Two spawns on an empty board, as `init` makes them: two tiles, each a 2
      or a 4, and fourteen empty cells. */
  lemma InitialBoard(g: Grid, where1: Draw, value1: Draw, where2: Draw, value2: Draw)
    requires forall i :: 0 <= i < 16 ==> g[i] == 0
    ensures var g2 := WithNewTile(WithNewTile(g, where1, value1), where2, value2);
            |EmptyCells(g2)| == 14 &&
            forall i :: 0 <= i < 16 ==> g2[i] == 0 || g2[i] == 2 || g2[i] == 4
  {
    EmptyCellsAllEmpty(g);
    var g1 := WithNewTile(g, where1, value1);
    SpawnOnce(g, where1, value1);
    SpawnOnce(g1, where2, value2);
  }

  /** One spawn on a board with an empty cell: one empty cell fewer, and the
      new cell holds a 2 or a 4. */
  lemma SpawnOnce(g: Grid, where: Draw, value: Draw)
    requires EmptyCells(g) != []
    ensures |EmptyCells(WithNewTile(g, where, value))| == |EmptyCells(g)| - 1
    ensures forall i :: 0 <= i < 16 ==>
              WithNewTile(g, where, value)[i] == g[i] || WithNewTile(g, where, value)[i] == NewTileValue(value)
  {
    var k := SpawnCell(g, where);
    var v := NewTileValue(value);
    assert WithNewTile(g, where, value) == g[k := v];
    EmptyCellsFill(g, k, v);
  }
}
