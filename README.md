# Game2048 in Dafny

A model of the game logic of a browser 2048 game (the `Game2048` class of
`script.js`). The board is sixteen cells in row-major order, each 0 (empty)
or a tile; a move slides every row (Left, Right) or every column (Up, Down)
towards one side, merging equal neighbours, adds each merged value to the
score and keeps `maxValue`, the largest tile merged so far. A move that
changed the board places a new 2 or 4 on a random empty cell. When the board
is full and no two neighbours are equal the game is over and the score goes
into a leaderboard of the ten best scores, highest first. The "new game"
button records a positive score and starts over; "restart" starts over
without recording.

Modules, following the parts of the class:

- `Line` (`line.dfy`): `processLine` on one line as functions — dropping
  the zeros (`Compact`), the forward scan for Left/Up (`MergeLeft`), the
  backward scan for Right/Down (`MergeRightFrom`, `MergeRight`), the padding
  (`Pad`) and the whole call (`Process`, which returns the cells and the
  merged values in the order the source adds them into the score).
- `Board` (`board.dfy`): the board, its rows and columns, the two
  transposes and the flattening of `move`, and `Slide`, the board and
  merges a move produces before it spawns.
- `Spawn` (`spawn.dfy`): `addNewNumber` — the list of empty cells, the cell
  and value chosen by two draws of `Math.random()`.
- `Terminal` (`terminal.dfy`): `isGameOver` and its meaning (no direction
  changes the board).
- `Leaderboard` (`leaderboard.dfy`): `updateLeaderboard` — append, stable
  descending sort, keep ten — and a session of such calls (`RecordAll`),
  which keeps the ten best of all stored and recorded scores, as if they
  had been sorted together once (`RecordAllSortsOnce`).
- `Game` (`game.dfy`): the class `Game2048` with fields `grid`, `score`,
  `maxValue` and `leaderboard`, whose methods run the source's loops and
  updates step by step and are proved equal to the functions above.

### The two scans are not mirror images

The forward scan merges a pair and moves on past the merged tile, so every
tile takes part in at most one merge (`[2,2,2,2]` to the left gives
`[4,4,0,0]`). The backward scan removes the left tile of a merged pair with
`splice(i - 1, 1)`, which moves the merged tile down to index `i - 1`, and
the next step compares exactly that tile with its left neighbour again. So
sliding right or down cascades: `[8,4,2,2]` to the right becomes
`[0,0,0,16]` and scores 4 + 8 + 16 = 28, `[4,2,2,0]` becomes `[0,0,0,8]`,
and `[4,2,0,2]` becomes `[0,0,0,8]` rather than the `[0,0,4,4]` that
mirroring the left slide would give. The usual 2048 rule, in which a right
slide mirrors a left slide, therefore disagrees with this code; the model
follows the code, and `Line.RightCascadeExample`,
`Line.RightIsNotMirroredLeft` and `Line.RightMergesTwice` state the
difference. The model does not treat this as a defect to correct: the code
is the behaviour of the game.

The source has no game-over state. Every call of `move` runs the
game-over test and records the score when it holds, whether or not the
board changed. On a finished board no move changes anything
(`Terminal.GameOverIsStuck`), so every further key press records the same
score once more, and the "new game" button then records it yet again,
because the score is still positive. `Game.Game2048.Move` and
`Game.Game2048.NewGame` state exactly this behaviour.

Randomness, the date and storage are parameters: a `Draw` is a real in
[0, 1) standing for one value of `Math.random()` (the cell it picks is
computed with exact arithmetic; see `Spawn.PickIndex` under "## Left out"),
the date is the text
`toLocaleDateString()` would produce, and the stored leaderboard is passed
to the constructor.

## Model

| member | source | states |
|---|---|---|
| Line.MaxWith | script.js:122 | the result of folding `Math.max` over the merges is at least the start value and every merge, and is one of them |
| Line.Compact | script.js:114 | `filter(x => x !== 0)`: keeps only non-zero cells, each taken from the line, never more cells than the line; a line without zeros is returned unchanged |
| Line.CompactKeepsTiles | script.js:114 | the kept cells are exactly the line's non-zero cells, each as often as it occurs, and no zero |
| Line.MergeLeft | script.js:118-125 | every cell of the compacted line ends either kept or in one merge (cells plus merges count the input), a non-empty line keeps a tile, and no zero appears |
| Line.MergeRightFrom | script.js:127-133 | the backward scan from a current tile: cells plus merges count the input, some tile remains, and no zero appears |
| Line.MergeRight | script.js:127-133 | the backward scan over the whole compacted line: cells plus merges count the input, a non-empty line keeps a tile, and no zero appears |
| Line.Merge | script.js:117-135 | the scan of the given direction: cells plus merges count the input, and no zero appears |
| Line.Pad | script.js:138-140 | the padded line has four cells when the merged line had at most four; `PadPacked` states where the zeros go |
| Line.Process | script.js:112-143 | a call on a line of at most four cells returns exactly four cells |
| Line.ProcessSum | script.js:114-142 | the returned cells add up to the same total as the input line: a merge replaces two tiles by their sum |
| Line.MergeSum | script.js:117-135 | both scans keep the total of the compacted line |
| Line.SumCompact | script.js:114 | dropping zeros keeps the total |
| Line.PadPacked | script.js:138-140 | padding puts the zeros after the tiles for left and before them for right, without changing the tiles |
| Line.ProcessPacked | script.js:112-143 | the tiles of the result are the merged tiles in order, each merge removes exactly one tile, and all zeros sit on the far side of the move's direction |
| Line.MergeLeftNoMerge | script.js:118-125 | the forward scan merges nothing exactly when no two neighbours are equal, and then returns the line itself |
| Line.MergeRightFromNoMerge | script.js:127-133 | the backward scan merges nothing exactly when no two neighbours are equal, and then returns the line itself |
| Line.ProcessNoMerge | script.js:114-135 | a line scores nothing exactly when its tiles, zeros removed, have no equal neighbours |
| Line.ProcessFixed | script.js:112-143 | a full line with no equal neighbours comes back unchanged and scores nothing |
| Line.ProcessUnchanged | script.js:112-143 | a line a slide leaves unchanged scored nothing |
| Line.ProcessFull | script.js:112-143 | a four-cell slide whose result has no empty cell left the line unchanged |
| Line.ProcessMovesPartialLine | script.js:112-143 | a four-cell line holding both a zero and a tile is changed by the left slide or by the right slide |
| Line.ProcessTiles | script.js:114-142 | a line of empty cells and powers of two gives cells and merge values that are again empty or powers of two |
| Line.MergeLeftPairsUp | script.js:118-125 | the forward scan keeps the tiles in order and replaces only disjoint pairs of equal neighbours by their double |
| Line.MergeRightFromRegroups | script.js:127-133 | the backward scan, entered with the total of a cascading run, cuts the tiles into consecutive runs, each of which cascades (read from the right, every tile equals the total of the tiles after it, so each merge joins two equal values), and replaces each run by its total |
| Line.MergeOrder | script.js:117-135 | forward: tiles merge at most once, in disjoint neighbouring pairs of equal tiles; backward: consecutive cascading runs of equal-value merges collapse into their totals |
| Line.UnequalTilesDoNotRegroup | script.js:128 | a run of two unequal tiles does not cascade: `[2,4]` cannot become `[6]`; the general rule is the one `MergeRightFromRegroups` states, that each merge joins two equal values |
| Line.LeftMergeExample | script.js:118-125 | `[2,2,2,2]` slid left gives `[4,4,0,0]`, two merges worth 8 |
| Line.LeftSkipsZerosExample | script.js:114-140 | `[2,0,2,4]` slid left gives `[4,4,0,0]` with one merge of 4 |
| Line.EmptyLineExample | script.js:112-143 | an empty line stays empty in either direction and scores nothing |
| Line.PairLeftExample | script.js:118-140 | `[2,2,0,0]` slid left gives `[4,0,0,0]` with one merge of 4 |
| Line.RightCascadeExample | script.js:127-140 | `[8,4,2,2]` slid right gives `[0,0,0,16]`, merges 4, 8, 16, worth 28 |
| Line.RightCascadeWithGapExample | script.js:127-140 | `[4,2,2,0]` slid right gives `[0,0,0,8]`, merges 4 and 8, worth 12 |
| Line.RightIsNotMirroredLeft | script.js:127-140 | `[4,2,0,2]` slid right gives `[0,0,0,8]`, not `[0,0,4,4]` |
| Line.RightMergesTwice | script.js:127-133 | the backward scan turns `[8,4,2,2]` into `[16]`, which no merge of disjoint pairs can give |
| Board.EmptyGrid | script.js:3 | (constant) sixteen empty cells, `Array(16).fill(0)`, also the reset at script.js:25 |
| Board.Row | script.js:81 | (defining body) row r is the slice of cells 4r to 4r + 3, `grid.slice(r * 4, (r + 1) * 4)` |
| Board.Column | script.js:89 | (defining body) column c is the cells 4r + c for r = 0..3, top to bottom, as the transpose reads them |
| Board.Flatten | script.js:95 | (defining body) `rows.flat()`: the four rows concatenated in order; `FlattenRows` and `RowsOfFlatten` prove it inverse to `Rows` |
| Board.Slide | script.js:79-95 | (defining body) rows slid for Left/Right; for Up/Down rows transposed, slid, transposed back; then flattened, with the merges in order. Its meaning is proved by `SlideByLines`, `SlideMerges`, `SlideSum`, `SlideTiles`, `SlideUnchanged` and `SlideLeavesRoom` |
| Board.Rows | script.js:79-82 | the rows of the board: four lines of four |
| Board.Transpose | script.js:89 | an m-by-n matrix transposes to an n-by-m one |
| Board.SlideLines | script.js:86 | each line of the result is `processLine` of the matching input line |
| Board.TransposeTwice | script.js:89-91 | transposing the columns back gives the original rows |
| Board.FlattenRows | script.js:79-95 | slicing the board into rows and flattening them gives the board back |
| Board.RowsOfFlatten | script.js:95 | row r of the flattened board is line r |
| Board.ColumnsOfFlatten | script.js:89-95 | column c of the board flattened from the transposed lines is line c |
| Board.TransposeRows | script.js:89 | the transposed rows are the columns of the board |
| Board.SameRows | script.js:79-82 | two boards with the same rows are equal |
| Board.SameColumns | script.js:89 | two boards with the same columns are equal |
| Board.SlideByLines | script.js:85-95 | after Left/Right every row is that row slid; after Up/Down every column is that column slid |
| Board.SlideMerges | script.js:85-92 | the merges of a move are those of the four rows top to bottom, or of the four columns left to right |
| Board.SlideUnchanged | script.js:98 | a move that leaves the board as it was merged nothing, so it scores nothing |
| Board.SlideLeavesRoom | script.js:98-101 | a move that changes the board leaves an empty cell, so the spawn that follows finds one |
| Board.SlideTiles | script.js:85-95 | a board of empty cells and powers of two stays one, and the merge values are powers of two |
| Board.SumByLines | script.js:79-91 | the total of the board is the total of its rows and of its columns |
| Board.SlideSum | script.js:85-95 | a move keeps the total of the tiles on the board |
| Board.CountByLines | script.js:79-91 | the number of tiles on the board is the number in its rows and the number in its columns |
| Board.RowsCount | script.js:85-86 | sliding every row loses exactly one tile per merge of the four rows |
| Board.ColumnsCount | script.js:89-91 | sliding every column loses exactly one tile per merge of the four columns |
| Board.SlideCount | script.js:85-95 | a move leaves exactly one tile fewer on the board for every merge it made |
| Board.MoveLeftExample | script.js:79-95 | a board holding only `[2,2]` at the start of the top row, moved left, holds only a 4 in the corner and merged one 4 |
| Spawn.EmptyCells | script.js:38-41 | the list holds exactly the indices of empty cells, in increasing order |
| Spawn.EmptyCellsOfZeros | script.js:25 | on the fresh board every index is listed in order |
| Spawn.PickIndex | script.js:44 | `Math.floor(r * n)`, with the product taken exactly, is a valid index into a list of n |
| Spawn.NewTileValue | script.js:45 | the new tile is 2 exactly when the draw is below 0.9, and 4 otherwise |
| Spawn.SpawnCell | script.js:43-44 | the chosen cell is on the board and empty |
| Spawn.WithNewTile | script.js:37-47 | (defining body) a full board is returned as is; otherwise the drawn empty cell gets the drawn 2 or 4. `SpawnEffect`, `SpawnOnce`, `SpawnSum` and `SpawnTiles` prove what it does |
| Spawn.EmptyCellsExist | script.js:38-43 | the list is non-empty exactly when some cell is empty |
| Spawn.EmptyCellsFill | script.js:45 | filling an empty cell removes one entry from the list |
| Spawn.SpawnEffect | script.js:37-47 | on a full board nothing changes; otherwise one empty cell becomes 2 or 4 and nothing else changes |
| Spawn.SpawnOnce | script.js:43-46 | a spawn on a board with room leaves one empty cell fewer, and every cell is either unchanged or the new value |
| Spawn.SpawnTiles | script.js:45 | a spawn keeps every cell empty or a power of two |
| Spawn.SpawnSum | script.js:43-46 | a spawn raises the total of the board by the new value, or by nothing on a full board |
| Spawn.InitialBoard | script.js:25-30 | the two spawns of `init` leave fourteen empty cells and only 2s and 4s |
| Terminal.MergeableAt | script.js:159-162 | (defining body) cell (r, c) equals its right neighbour when c < 3, or its lower neighbour when r < 3 |
| Terminal.GameOver | script.js:152-169 | (defining body) no cell is zero and no cell is mergeable with its right or lower neighbour; `GameOverExactly` proves it holds exactly when no direction changes the board |
| Terminal.GameOverRow | script.js:154-167 | on a finished board every row is full with no equal neighbours |
| Terminal.GameOverColumn | script.js:154-167 | on a finished board every column is full with no equal neighbours |
| Terminal.GameOverIsStuck | script.js:152-169 | on a finished board every direction leaves the board unchanged and merges nothing |
| Terminal.RowChangeMovesBoard | script.js:85-98 | a row its slide changes makes the whole board change |
| Terminal.ColumnChangeMovesBoard | script.js:89-98 | a column its slide changes makes the whole board change |
| Terminal.FullLineWithPairMoves | script.js:160-163 | a full line with two equal neighbours is changed by a slide in either direction |
| Terminal.PartialRowMoves | script.js:154 | a board with a row holding both an empty cell and a tile is changed by a move left or right |
| Terminal.NotOverCanMove | script.js:152-169 | a board with a tile that is not over has a direction that changes it |
| Terminal.GameOverExactly | script.js:152-169 | a board with a tile is over exactly when no direction changes it |
| Leaderboard.InsertDesc | script.js:184 | the list grows by exactly one record |
| Leaderboard.SortDesc | script.js:184 | sorting keeps the number of records |
| Leaderboard.Take | script.js:185 | `slice(0, n)` keeps the first min(length, n) records unchanged |
| Leaderboard.Record | script.js:183-185 | the new leaderboard holds one more record, at most ten |
| Leaderboard.AtLeast | script.js:184 | counts leading records only, never more than the list has |
| Leaderboard.InsertDescPermutes | script.js:184 | inserting changes the records only by adding the new one |
| Leaderboard.SortDescPermutes | script.js:184 | sorting keeps the same records, each as often |
| Leaderboard.InsertDescBounded | script.js:184 | inserting adds no score above a common bound |
| Leaderboard.InsertDescSorted | script.js:184 | inserting into a descending list keeps it descending |
| Leaderboard.SortDescSorted | script.js:184 | the sorted list is in descending order of score |
| Leaderboard.InsertDescAtEnd | script.js:184 | a record no higher than all before it goes at the end |
| Leaderboard.SortDescOfSorted | script.js:184 | sorting a descending list leaves it as it is |
| Leaderboard.WithScoreMembers | script.js:184 | the records of a score are exactly the members with that score |
| Leaderboard.InsertDescStable | script.js:184 | an inserted record goes after all records of its own score |
| Leaderboard.SortDescStable | script.js:184 | the records of each score keep their relative order |
| Leaderboard.StableOrderUnique | script.js:184 | two descending lists with the same records of every score, in the same order, are equal |
| Leaderboard.SortDescIsStableSort | script.js:184 | the sort result is the only descending arrangement that keeps equal scores in order |
| Leaderboard.InsertDescAt | script.js:183-184 | the new record lands right after the records scoring at least as much |
| Leaderboard.RecordKeepsBest | script.js:183-185 | the leaderboard is descending, a prefix of the sorted records, and every kept record scores at least every dropped one |
| Leaderboard.RecordPlacesNewEntry | script.js:183-185 | the new record sits after all stored records scoring at least as much, is kept exactly when fewer than ten of them exist, and otherwise the old top ten stay |
| Leaderboard.TieKeepsOlderFirst | script.js:184 | of two equal scores the older record stays first |
| Leaderboard.RecordAll | script.js:177-185 | recording a session of scores one `updateLeaderboard` call at a time, from a stored list of at most ten, leaves min(stored + recorded, 10) records |
| Leaderboard.TakeInsertTake | script.js:184-185 | cutting to ten before inserting the next record and again after gives the same ten as cutting only after |
| Leaderboard.RecordAllSortsOnce | script.js:177-185 | a session of calls gives the same leaderboard as sorting the stored and all new records together once and keeping the first ten |
| Leaderboard.PrefixKeepsBest | script.js:184-185 | the first n records of a descending list are descending, and every record after them scores at most every record among them |
| Leaderboard.RecordAllKeepsBest | script.js:177-185 | after a session the leaderboard is descending, holds only stored or recorded records, and every record it dropped scores at most every record it kept |
| Game.Game2048.constructor | script.js:2-12 | a new game has the board of two spawns on an empty board, score and maximum 0, and the stored leaderboard |
| Game.Game2048.Init | script.js:25-30 | reset: empty board, score and maximum 0, then two spawns; the leaderboard is untouched |
| Game.Game2048.AddNewNumber | script.js:37-47 | the board becomes the spawn of the two draws |
| Game.Game2048.ProcessLine | script.js:112-143 | returns the slid line, adds every merge to `score` and folds every merge into `maxValue` |
| Game.Game2048.MergeForward | script.js:118-125 | the forward loop computes the forward scan and its score and maximum |
| Game.Game2048.MergeBackward | script.js:127-134 | the backward loop computes the cascading backward scan and its score and maximum |
| Game.Game2048.ProcessLines | script.js:86 | slides each line in turn, scoring the merges in line order |
| Game.Game2048.SplitRows | script.js:79-82 | the sliced rows are the rows of the board |
| Game.Game2048.ProcessColumns | script.js:89-91 | transposes, slides each column, transposes back, scoring the column merges |
| Game.Game2048.SlideGrid | script.js:79-95 | the board becomes the slid board, the score and maximum take all its merges |
| Game.Game2048.SlideAndSpawn | script.js:75-103 | `moved` holds exactly when some cell changed; then the slid board gets a spawn; score and maximum take the merges; valid cells stay valid |
| Game.Game2048.CommitIfOver | script.js:105-109 | the score is recorded exactly when the board is over |
| Game.Game2048.Move | script.js:74-110 | the whole move: slide, spawn exactly when the board changed, score and maximum updated, leaderboard recorded exactly when the final board is over, validity kept |
| Game.Game2048.IsGameOver | script.js:152-169 | true exactly when no cell is empty and no cell equals its right or lower neighbour |
| Game.Game2048.UpdateLeaderboard | script.js:177-185 | the leaderboard becomes the old one with the record appended, sorted and cut to ten |
| Game.Game2048.NewGame | script.js:242-247 | a positive score is recorded first, then the game is reset |
| Game.Game2048.Restart | script.js:250-252 | the game is reset and the leaderboard kept |
| Game.InitialTiles | script.js:25-30 | the board `init` makes holds only empty cells and tiles |
| Game.MoveKeepsTiles | script.js:85-103 | a move keeps every cell empty or a power of two and `maxValue` a tile |
| Game.UnmovedChangesNothing | script.js:98-103 | when `moved` is false the board is the old one and no merge scored |
| Game.MoveTotal | script.js:85-103 | after a move the tiles add up to the old total plus the spawned tile when the board changed, and to the old total otherwise |

## Left out

- Rendering: the cells of the grid, the zodiac emoji per value, the score
  text, the game-over dialog and the leaderboard display
  (`updateDisplay`, `showGameOver`, `hideGameOver`,
  `updateLeaderboardDisplay`) are output only.
- Storage: `loadLeaderboard` reads JSON from `localStorage`; the model takes
  the parsed list as a constructor parameter and assumes its scores are
  numbers. A stored value that fails to parse (which throws in the source)
  and the write back in `updateLeaderboard` are not modelled.
- Randomness: each `Math.random()` is a `Draw` parameter; the model states
  which cell and value a draw selects, not their probabilities.
- Spawn.PickIndex: the product `r * n` is exact, not rounded to a double as
  `Math.random() * emptyCells.length` is, so for a few draws just below a
  multiple of 1/n the source picks the next index (with three empty cells
  and the double nearest 1/3, the rounded product is exactly 1, so the
  source picks index 1 and the model index 0). Every index is still
  reachable, the result is always a valid index, and no contract depends on
  which index a given draw picks: every lemma about spawning holds for all
  draws. The value draw is unaffected: a double compares with 0.9 as the
  real it stands for does.
- The date: `new Date().toLocaleDateString()` is a string parameter.
- Key handling: `handleKeyPress` only forwards the four arrow keys to
  `move`, which takes the direction directly. `init` adds a new keydown
  listener on every call, so after n resets one key press runs `move` n + 1
  times; the model runs one `move` per call and does not model the listener
  list.
- Game.Game2048.SlideAndSpawn, Game.Game2048.CommitIfOver,
  Game.Game2048.SlideGrid, Game.Game2048.ProcessColumns,
  Game.Game2048.SplitRows, Game.Game2048.MergeForward and
  Game.Game2048.MergeBackward are parts of `move` and `processLine` split out
  as their own methods; together they do what the source does in one body.
- Number width: cells and the score are unbounded naturals; JavaScript's
  doubles lose integer precision only far beyond any reachable tile.
