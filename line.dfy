/** One line of the board -- a row or a column of four cells -- and the
    slide-and-merge step that `processLine` applies to it. The functions
    here specify that step; the method that performs it in place lives in
    module Game. */
module Line {

  /** The number of cells in a line of the 4x4 board. */
  const Width := 4

  /** The outcome of sliding one line: the cells it ends with, and the value
      of every merge in the order the scan performed them (each is the value
      added to the score and offered to the running maximum). */
  datatype LineResult = LineResult(cells: seq<nat>, merges: seq<nat>)

  function Max(a: nat, b: nat): nat
  {
    if a >= b then a else b
  }

  /** The total of `s`, accumulated front to back as repeated `score +=` does. */
  function Sum(s: seq<nat>): nat
  {
    if s == [] then 0 else Sum(s[..|s| - 1]) + s[|s| - 1]
  }

  /** `Math.max` applied to `m` and each element of `s` in turn. */
  function MaxWith(m: nat, s: seq<nat>): (r: nat)
    ensures m <= r
    ensures forall k :: 0 <= k < |s| ==> s[k] <= r
    ensures r == m || r in s
  {
    if s == [] then m
    else
      var front := MaxWith(m, s[..|s| - 1]);
      assert front == m || front in s[..|s| - 1];
      Max(front, s[|s| - 1])
  }

  /** `n` empty cells. */
  function Zeros(n: nat): seq<nat>
  {
    seq(n, _ => 0)
  }

  /** The non-zero cells of `s`, in their order (`line.filter(x => x !== 0)`). */
  function Compact(s: seq<nat>): (r: seq<nat>)
    ensures |r| <= |s|
    ensures forall k :: 0 <= k < |r| ==> r[k] != 0 && r[k] in s
    ensures (forall k :: 0 <= k < |s| ==> s[k] != 0) ==> r == s
  {
    if s == [] then []
    else
      assert s == s[..|s| - 1] + [s[|s| - 1]];
      Compact(s[..|s| - 1]) + (if s[|s| - 1] == 0 then [] else [s[|s| - 1]])
  }

  /** No two neighbouring cells of `c` hold the same value. */
  ghost predicate NoAdjacentEqual(c: seq<nat>)
  {
    forall i, j :: 0 <= i < j < |c| && j == i + 1 ==> c[i] != c[j]
  }

  /** The forward scan of `processLine` (leftDirection true) over the compacted
      line `c`: the first two tiles merge if equal and the scan resumes after
      the merged tile, so the merged tile is never compared again. */
  function MergeLeft(c: seq<nat>): (r: LineResult)
    ensures |r.cells| + |r.merges| == |c|
    ensures |c| > 0 ==> |r.cells| > 0
    ensures (forall k :: 0 <= k < |c| ==> c[k] != 0) ==>
              forall k :: 0 <= k < |r.cells| ==> r.cells[k] != 0
    decreases |c|
  {
    if |c| < 2 then LineResult(c, [])
    else if c[0] == c[1] then
      var rest := MergeLeft(c[2..]);
      LineResult([2 * c[0]] + rest.cells, [2 * c[0]] + rest.merges)
    else
      var rest := MergeLeft(c[1..]);
      LineResult([c[0]] + rest.cells, rest.merges)
  }

  /** The backward scan of `processLine` (leftDirection false), from the moment
      the tile under the scan index is `cur` and the untouched tiles before it
      are `prefix`. On a merge, `splice(i - 1, 1)` moves the doubled tile down
      to index i - 1, where the next step compares it again: merges cascade. */
  function MergeRightFrom(prefix: seq<nat>, cur: nat): (r: LineResult)
    ensures |r.cells| + |r.merges| == |prefix| + 1
    ensures |r.cells| > 0
    ensures cur != 0 && (forall k :: 0 <= k < |prefix| ==> prefix[k] != 0) ==>
              forall k :: 0 <= k < |r.cells| ==> r.cells[k] != 0
    decreases |prefix|
  {
    if prefix == [] then LineResult([cur], [])
    else
      var p := prefix[|prefix| - 1];
      var front := prefix[..|prefix| - 1];
      if p == cur then
        var rest := MergeRightFrom(front, 2 * cur);
        LineResult(rest.cells, [2 * cur] + rest.merges)
      else
        var rest := MergeRightFrom(front, p);
        LineResult(rest.cells + [cur], rest.merges)
  }

  /** The backward scan over the whole compacted line `c`. */
  function MergeRight(c: seq<nat>): (r: LineResult)
    ensures |r.cells| + |r.merges| == |c|
    ensures |c| > 0 ==> |r.cells| > 0
    ensures (forall k :: 0 <= k < |c| ==> c[k] != 0) ==>
              forall k :: 0 <= k < |r.cells| ==> r.cells[k] != 0
  {
    if c == [] then LineResult([], []) else MergeRightFrom(c[..|c| - 1], c[|c| - 1])
  }

  /** The scan `processLine` runs for the given direction. */
  function Merge(c: seq<nat>, left: bool): (r: LineResult)
    ensures |r.cells| + |r.merges| == |c|
    ensures (forall k :: 0 <= k < |c| ==> c[k] != 0) ==>
              forall k :: 0 <= k < |r.cells| ==> r.cells[k] != 0
  {
    if left then MergeLeft(c) else MergeRight(c)
  }

  /** The padding loop of `processLine`: zeros are pushed after the tiles for
      the left direction and unshifted before them otherwise. */
  function Pad(m: seq<nat>, left: bool): (r: seq<nat>)
    ensures |r| == if |m| < Width then Width else |m|
  {
    if |m| >= Width then m
    else if left then m + Zeros(Width - |m|)
    else Zeros(Width - |m|) + m
  }

  /** Everything `processLine(line, left)` computes: the returned cells and
      the merge values it adds to the score. */
  function Process(line: seq<nat>, left: bool): (r: LineResult)
    ensures |line| <= Width ==> |r.cells| == Width
  {
    var m := Merge(Compact(line), left);
    LineResult(Pad(m.cells, left), m.merges)
  }

  // ---------------------------------------------------------------------
  // Sums, maxima and compaction over concatenations

  lemma {:induction false} SumConcat(a: seq<nat>, b: seq<nat>)
    ensures Sum(a + b) == Sum(a) + Sum(b)
    decreases |b|
  {
    if b == [] {
      assert a + b == a;
    } else {
      assert (a + b)[..|a + b| - 1] == a + b[..|b| - 1];
      SumConcat(a, b[..|b| - 1]);
    }
  }

  lemma {:induction false} MaxWithConcat(m: nat, a: seq<nat>, b: seq<nat>)
    ensures MaxWith(m, a + b) == MaxWith(MaxWith(m, a), b)
    decreases |b|
  {
    if b == [] {
      assert a + b == a;
    } else {
      assert (a + b)[..|a + b| - 1] == a + b[..|b| - 1];
      MaxWithConcat(m, a, b[..|b| - 1]);
    }
  }

  lemma {:induction false} SumZeros(n: nat)
    ensures Sum(Zeros(n)) == 0
  {
    if n > 0 {
      assert Zeros(n)[..n - 1] == Zeros(n - 1);
      SumZeros(n - 1);
    }
  }

  lemma {:induction false} CompactConcat(a: seq<nat>, b: seq<nat>)
    ensures Compact(a + b) == Compact(a) + Compact(b)
    decreases |b|
  {
    if b == [] {
      assert a + b == a;
    } else {
      assert (a + b)[..|a + b| - 1] == a + b[..|b| - 1];
      CompactConcat(a, b[..|b| - 1]);
    }
  }

  lemma {:induction false} CompactZeros(n: nat)
    ensures Compact(Zeros(n)) == []
  {
    if n > 0 {
      assert Zeros(n)[..n - 1] == Zeros(n - 1);
      CompactZeros(n - 1);
    }
  }

  /** `Compact` keeps every non-zero cell, as often as it occurs, and drops
      every zero. */
  lemma {:induction false} CompactKeepsTiles(s: seq<nat>)
    ensures multiset(Compact(s)) == multiset(s)[0 := 0]
  {
    if s != [] {
      var front, last := s[..|s| - 1], s[|s| - 1];
      assert s == front + [last];
      CompactKeepsTiles(front);
    }
  }

  /** Removing the zeros does not change the total. */
  lemma {:induction false} SumCompact(s: seq<nat>)
    ensures Sum(Compact(s)) == Sum(s)
  {
    if s != [] {
      SumCompact(s[..|s| - 1]);
      var last := if s[|s| - 1] == 0 then [] else [s[|s| - 1]];
      SumConcat(Compact(s[..|s| - 1]), last);
    }
  }

  // ---------------------------------------------------------------------
  // Conservation: merging never creates or destroys tile value

  lemma {:induction false} MergeLeftSum(c: seq<nat>)
    ensures Sum(MergeLeft(c).cells) == Sum(c)
    decreases |c|
  {
    if |c| >= 2 {
      if c[0] == c[1] {
        MergeLeftSum(c[2..]);
        SumConcat([2 * c[0]], MergeLeft(c[2..]).cells);
        assert c == [c[0], c[1]] + c[2..];
        SumConcat([c[0], c[1]], c[2..]);
        assert Sum([c[0], c[1]]) == c[0] + c[1] by {
          assert [c[0], c[1]][..1] == [c[0]];
        }
      } else {
        MergeLeftSum(c[1..]);
        SumConcat([c[0]], MergeLeft(c[1..]).cells);
        assert c == [c[0]] + c[1..];
        SumConcat([c[0]], c[1..]);
      }
    }
  }

  lemma {:induction false} MergeRightFromSum(prefix: seq<nat>, cur: nat)
    ensures Sum(MergeRightFrom(prefix, cur).cells) == Sum(prefix) + cur
    decreases |prefix|
  {
    if prefix != [] {
      var p := prefix[|prefix| - 1];
      var front := prefix[..|prefix| - 1];
      if p == cur {
        MergeRightFromSum(front, 2 * cur);
      } else {
        MergeRightFromSum(front, p);
      }
    }
  }

  lemma MergeSum(c: seq<nat>, left: bool)
    ensures Sum(Merge(c, left).cells) == Sum(c)
  {
    if left {
      MergeLeftSum(c);
    } else if c != [] {
      MergeRightFromSum(c[..|c| - 1], c[|c| - 1]);
      assert c == c[..|c| - 1] + [c[|c| - 1]];
    }
  }

  /** A slide keeps the total tile value of the line: the amount a merge adds
      to the score is new value on the score, not on the board. */
  lemma ProcessSum(line: seq<nat>, left: bool)
    ensures Sum(Process(line, left).cells) == Sum(line)
  {
    var m := Merge(Compact(line), left).cells;
    MergeSum(Compact(line), left);
    SumCompact(line);
    if |m| < Width {
      SumZeros(Width - |m|);
      if left {
        SumConcat(m, Zeros(Width - |m|));
      } else {
        SumConcat(Zeros(Width - |m|), m);
      }
    }
  }

  // ---------------------------------------------------------------------
  // Packing: the tiles end up against the side the line moves to

  /** Padding a zero-free line puts its tiles against the start (left) or
      the end (right) and adds only zeros. */
  lemma PadPacked(m: seq<nat>, left: bool)
    requires forall k :: 0 <= k < |m| ==> m[k] != 0
    ensures Compact(Pad(m, left)) == m
    ensures var cells := Pad(m, left);
            left ==> forall i, j :: 0 <= i < j < |cells| && cells[i] == 0 ==> cells[j] == 0
    ensures var cells := Pad(m, left);
            !left ==> forall i, j :: 0 <= i < j < |cells| && cells[j] == 0 ==> cells[i] == 0
  {
    assert Compact(m) == m;
    if |m| < Width {
      var z := Zeros(Width - |m|);
      CompactZeros(Width - |m|);
      if left {
        CompactConcat(m, z);
        assert m + z == Pad(m, left);
      } else {
        CompactConcat(z, m);
        assert z + m == Pad(m, left);
      }
    }
  }

  /** The result of a slide holds the merged tiles, in order, packed against
      the start (left) or the end (right) with zeros on the other side, and
      one tile fewer than the input for every merge. */
  lemma ProcessPacked(line: seq<nat>, left: bool)
    ensures var r := Process(line, left);
            Compact(r.cells) == Merge(Compact(line), left).cells
    ensures var r := Process(line, left);
            |Compact(r.cells)| + |r.merges| == |Compact(line)|
    ensures var cells := Process(line, left).cells;
            left ==> forall i, j :: 0 <= i < j < |cells| && cells[i] == 0 ==> cells[j] == 0
    ensures var cells := Process(line, left).cells;
            !left ==> forall i, j :: 0 <= i < j < |cells| && cells[j] == 0 ==> cells[i] == 0
  {
    var c := Compact(line);
    var m := Merge(c, left);
    assert |m.cells| + |m.merges| == |c| by {
      if !left && c != [] {
        assert |c[..|c| - 1]| + 1 == |c|;
      }
    }
    assert forall k :: 0 <= k < |m.cells| ==> m.cells[k] != 0 by {
      if !left && c != [] {
        assert c[|c| - 1] != 0;
      }
    }
    PadPacked(m.cells, left);
  }

  // ---------------------------------------------------------------------
  // Lines that do not merge

  lemma NoAdjacentEqualCons(x: nat, s: seq<nat>)
    requires s != []
    ensures NoAdjacentEqual([x] + s) <==> x != s[0] && NoAdjacentEqual(s)
  {
    var w := [x] + s;
    if NoAdjacentEqual(w) {
      assert w[0] != w[1];
      forall i, j | 0 <= i < j < |s| && j == i + 1 ensures s[i] != s[j] {
        assert w[i + 1] != w[j + 1];
      }
    }
    if x != s[0] && NoAdjacentEqual(s) {
      forall i, j | 0 <= i < j < |w| && j == i + 1 ensures w[i] != w[j] {
        if i > 0 { assert w[i] == s[i - 1] && w[j] == s[j - 1]; }
      }
    }
  }

  lemma NoAdjacentEqualSnoc(s: seq<nat>, x: nat)
    requires s != []
    ensures NoAdjacentEqual(s + [x]) <==> NoAdjacentEqual(s) && s[|s| - 1] != x
  {
    var w := s + [x];
    if NoAdjacentEqual(w) {
      assert w[|s| - 1] != w[|s|];
      forall i, j | 0 <= i < j < |s| && j == i + 1 ensures s[i] != s[j] {
        assert w[i] != w[j];
      }
    }
    if NoAdjacentEqual(s) && s[|s| - 1] != x {
      forall i, j | 0 <= i < j < |w| && j == i + 1 ensures w[i] != w[j] {
        if j < |s| { assert w[i] == s[i] && w[j] == s[j]; }
      }
    }
  }

  lemma {:induction false} MergeLeftNoMerge(c: seq<nat>)
    ensures MergeLeft(c).merges == [] <==> NoAdjacentEqual(c)
    ensures NoAdjacentEqual(c) ==> MergeLeft(c).cells == c
    decreases |c|
  {
    if |c| >= 2 {
      assert c == [c[0]] + c[1..];
      NoAdjacentEqualCons(c[0], c[1..]);
      if c[0] != c[1] {
        MergeLeftNoMerge(c[1..]);
      }
    }
  }

  lemma {:induction false} MergeRightFromNoMerge(prefix: seq<nat>, cur: nat)
    ensures MergeRightFrom(prefix, cur).merges == [] <==> NoAdjacentEqual(prefix + [cur])
    ensures NoAdjacentEqual(prefix + [cur]) ==> MergeRightFrom(prefix, cur).cells == prefix + [cur]
    decreases |prefix|
  {
    if prefix != [] {
      var p := prefix[|prefix| - 1];
      var front := prefix[..|prefix| - 1];
      NoAdjacentEqualSnoc(prefix, cur);
      if p != cur {
        MergeRightFromNoMerge(front, p);
        assert front + [p] == prefix;
      }
    }
  }

  lemma MergeNoMerge(c: seq<nat>, left: bool)
    ensures Merge(c, left).merges == [] <==> NoAdjacentEqual(c)
    ensures NoAdjacentEqual(c) ==> Merge(c, left).cells == c
  {
    if left {
      MergeLeftNoMerge(c);
    } else if c != [] {
      MergeRightFromNoMerge(c[..|c| - 1], c[|c| - 1]);
      assert c[..|c| - 1] + [c[|c| - 1]] == c;
    }
  }

  /** A line merges nothing exactly when no two neighbouring tiles are equal
      once the zeros are gone; it then comes back only compacted, and the
      score and the running maximum are left as they were. */
  lemma ProcessNoMerge(line: seq<nat>, left: bool)
    ensures Process(line, left).merges == [] <==> NoAdjacentEqual(Compact(line))
    ensures NoAdjacentEqual(Compact(line)) ==>
              Process(line, left).cells == Pad(Compact(line), left)
  {
    MergeNoMerge(Compact(line), left);
  }

  /** A full line with no equal neighbours is left exactly as it is. */
  lemma ProcessFixed(line: seq<nat>, left: bool)
    requires |line| == Width
    requires forall k :: 0 <= k < |line| ==> line[k] != 0
    requires NoAdjacentEqual(line)
    ensures Process(line, left) == LineResult(line, [])
  {
    MergeNoMerge(line, left);
  }

  /** A line left unchanged by a slide merged nothing: every merge would have
      removed a tile. */
  lemma ProcessUnchanged(line: seq<nat>, left: bool)
    requires Process(line, left).cells == line
    ensures Process(line, left).merges == []
  {
    ProcessPacked(line, left);
  }

  /** A four-cell line whose slide leaves no cell empty was full with no
      equal neighbours, and is left exactly as it was. */
  lemma ProcessFull(line: seq<nat>, left: bool)
    requires |line| == Width
    requires forall k :: 0 <= k < Width ==> Process(line, left).cells[k] != 0
    ensures Process(line, left).cells == line
  {
    var r := Process(line, left);
    ProcessPacked(line, left);
    assert Compact(r.cells) == r.cells;
    if z :| 0 <= z < Width && line[z] == 0 {
      CompactShorter(line, z);
    } else {
      assert Compact(line) == line;
      assert r.merges == [];
      ProcessNoMerge(line, left);
    }
  }

  /** A four-cell line that holds a zero and a tile is changed by one of
      the two horizontal directions: sliding left leaves its last cell
      empty, sliding right leaves it occupied. */
  lemma ProcessMovesPartialLine(line: seq<nat>)
    requires |line| == Width
    requires exists k :: 0 <= k < Width && line[k] == 0
    requires exists k :: 0 <= k < Width && line[k] != 0
    ensures Process(line, true).cells != line || Process(line, false).cells != line
  {
    var c := Compact(line);
    var k0 :| 0 <= k0 < Width && line[k0] == 0;
    var k1 :| 0 <= k1 < Width && line[k1] != 0;
    CompactLengths(line, k0, k1);
    var l := MergeLeft(c).cells;
    var r := MergeRight(c).cells;
    assert |l| < Width;
    assert Process(line, true).cells[Width - 1] == 0;
    assert 0 < |r| <= Width - 1;
    assert Process(line, false).cells[Width - 1] == r[|r| - 1];
  }

  /** A zero shortens the compacted line; a tile keeps it non-empty. */
  lemma {:induction false} CompactLengths(s: seq<nat>, z: nat, t: nat)
    requires z < |s| && s[z] == 0
    requires t < |s| && s[t] != 0
    ensures 0 < |Compact(s)| < |s|
    decreases |s|
  {
    var front := s[..|s| - 1];
    if z == |s| - 1 {
      assert t < |front| && front[t] != 0;
      CompactNonEmpty(front, t);
    } else if t == |s| - 1 {
      assert z < |front| && front[z] == 0;
      CompactShorter(front, z);
    } else {
      CompactLengths(front, z, t);
    }
  }

  lemma {:induction false} CompactNonEmpty(s: seq<nat>, t: nat)
    requires t < |s| && s[t] != 0
    ensures |Compact(s)| > 0
    decreases |s|
  {
    if t < |s| - 1 {
      CompactNonEmpty(s[..|s| - 1], t);
    }
  }

  lemma {:induction false} CompactShorter(s: seq<nat>, z: nat)
    requires z < |s| && s[z] == 0
    ensures |Compact(s)| < |s|
    decreases |s|
  {
    if z < |s| - 1 {
      CompactShorter(s[..|s| - 1], z);
    }
  }

  // ---------------------------------------------------------------------
  // Tile values

  /** A positive power of two. */
  predicate IsPow2(n: nat)
    decreases n
  {
    if n <= 1 then n == 1 else n % 2 == 0 && IsPow2(n / 2)
  }

  /** A cell value that can occur on the board: empty, or a power of two from 2 up. */
  predicate IsTile(n: nat)
  {
    n == 0 || (n >= 2 && IsPow2(n))
  }

  ghost predicate AllTiles(s: seq<nat>)
  {
    forall k :: 0 <= k < |s| ==> IsTile(s[k])
  }

  lemma AllTilesConcat(a: seq<nat>, b: seq<nat>)
    requires AllTiles(a) && AllTiles(b)
    ensures AllTiles(a + b)
  {
    forall k | 0 <= k < |a + b| ensures IsTile((a + b)[k]) {
      if k >= |a| { assert (a + b)[k] == b[k - |a|]; }
    }
  }

  lemma {:induction false} MergeLeftTiles(c: seq<nat>)
    requires forall k :: 0 <= k < |c| ==> c[k] != 0 && IsTile(c[k])
    ensures AllTiles(MergeLeft(c).cells) && AllTiles(MergeLeft(c).merges)
    decreases |c|
  {
    if |c| >= 2 {
      if c[0] == c[1] {
        assert IsPow2(2 * c[0]) by { assert (2 * c[0]) / 2 == c[0]; }
        MergeLeftTiles(c[2..]);
      } else {
        MergeLeftTiles(c[1..]);
      }
    }
  }

  lemma {:induction false} MergeRightFromTiles(prefix: seq<nat>, cur: nat)
    requires cur != 0 && IsTile(cur)
    requires forall k :: 0 <= k < |prefix| ==> prefix[k] != 0 && IsTile(prefix[k])
    ensures AllTiles(MergeRightFrom(prefix, cur).cells) && AllTiles(MergeRightFrom(prefix, cur).merges)
    decreases |prefix|
  {
    if prefix != [] {
      var p := prefix[|prefix| - 1];
      var front := prefix[..|prefix| - 1];
      if p == cur {
        assert IsPow2(2 * cur) by { assert (2 * cur) / 2 == cur; }
        MergeRightFromTiles(front, 2 * cur);
      } else {
        MergeRightFromTiles(front, p);
      }
    }
  }

  lemma {:induction false} CompactTiles(s: seq<nat>)
    requires AllTiles(s)
    ensures forall k :: 0 <= k < |Compact(s)| ==> Compact(s)[k] != 0 && IsTile(Compact(s)[k])
    decreases |s|
  {
    if s != [] {
      var front := s[..|s| - 1];
      CompactTiles(front);
      AllTilesConcat(Compact(front), if s[|s| - 1] == 0 then [] else [s[|s| - 1]]);
    }
  }

  lemma PadTiles(m: seq<nat>, left: bool)
    requires AllTiles(m)
    ensures AllTiles(Pad(m, left))
  {
    if |m| < Width {
      var z := Zeros(Width - |m|);
      assert AllTiles(z);
      if left { AllTilesConcat(m, z); } else { AllTilesConcat(z, m); }
    }
  }

  /** Sliding a line of valid cells yields valid cells, and every merge value
      is itself a tile. */
  lemma ProcessTiles(line: seq<nat>, left: bool)
    requires AllTiles(line)
    ensures AllTiles(Process(line, left).cells) && AllTiles(Process(line, left).merges)
  {
    var c := Compact(line);
    CompactTiles(line);
    var m := Merge(c, left);
    if left {
      MergeLeftTiles(c);
    } else if c != [] {
      MergeRightFromTiles(c[..|c| - 1], c[|c| - 1]);
    }
    assert AllTiles(m.cells);
    PadTiles(m.cells, left);
  }

  // ---------------------------------------------------------------------
  // Left merges each tile at most once; right merges may cascade

  /** `out` arises from `c` by keeping each tile or replacing two equal
      neighbours by their double, left to right: no tile takes part in more
      than one merge. */
  ghost predicate PairsUp(c: seq<nat>, out: seq<nat>)
    decreases |c|
  {
    if c == [] then out == []
    else
      out != [] &&
      ((out[0] == c[0] && PairsUp(c[1..], out[1..])) ||
       (|c| >= 2 && c[0] == c[1] && out[0] == 2 * c[0] && PairsUp(c[2..], out[1..])))
  }

  /** A run the backward scan collapses into one tile: read from the right,
      each tile equals the total of the tiles after it (`[8,4,2,2]`, `[2,2]`,
      `[4]`), so every merge of the cascade joins two equal values. */
  ghost predicate Cascades(run: seq<nat>)
    decreases |run|
  {
    run != [] && (|run| == 1 || (run[0] == Sum(run[1..]) && Cascades(run[1..])))
  }

  /** `out` arises from `c` by cutting it into consecutive runs that each
      cascade, and replacing each run by its total: the tiles keep their
      order, only neighbours are combined, and only equal values merge. */
  ghost predicate Regroups(c: seq<nat>, out: seq<nat>)
    decreases |out|, 1
  {
    if out == [] then c == []
    else exists k :: RegroupsAt(c, out, k)
  }

  /** The last run of `c` starts at `k`, cascades into the last tile of
      `out`, and the tiles before it regroup into the rest of `out`. */
  ghost predicate RegroupsAt(c: seq<nat>, out: seq<nat>, k: int)
    requires out != []
    decreases |out|, 0
  {
    0 <= k < |c| && Cascades(c[k..]) && Sum(c[k..]) == out[|out| - 1] &&
    Regroups(c[..k], out[..|out| - 1])
  }

  /** The forward scan merges every tile at most once. */
  lemma {:induction false} MergeLeftPairsUp(c: seq<nat>)
    ensures PairsUp(c, MergeLeft(c).cells)
    decreases |c|
  {
    var out := MergeLeft(c).cells;
    if |c| == 1 {
      assert out[1..] == [] && c[1..] == [];
    } else if |c| >= 2 {
      if c[0] == c[1] {
        MergeLeftPairsUp(c[2..]);
        assert out[1..] == MergeLeft(c[2..]).cells;
      } else {
        MergeLeftPairsUp(c[1..]);
        assert out[1..] == MergeLeft(c[1..]).cells;
      }
    }
  }

  /** The backward scan, entered with a current tile that is the total of a
      cascading run `run`, combines only consecutive cascading runs of the
      line. */
  lemma {:induction false} MergeRightFromRegroups(prefix: seq<nat>, run: seq<nat>)
    requires Cascades(run)
    ensures Regroups(prefix + run, MergeRightFrom(prefix, Sum(run)).cells)
    decreases |prefix|, 1
  {
    if prefix == [] {
      var c, out := prefix + run, MergeRightFrom(prefix, Sum(run)).cells;
      assert c == run && c[0..] == run && c[..0] == [];
      assert out == [Sum(run)];
      RegroupsExtend(c, out, 0);
    } else if prefix[|prefix| - 1] == Sum(run) {
      RegroupsMergeStep(prefix, run);
    } else {
      RegroupsKeepStep(prefix, run);
    }
  }

  /** The tile before the run equals its total: the run grows by one tile. */
  lemma {:induction false} RegroupsMergeStep(prefix: seq<nat>, run: seq<nat>)
    requires Cascades(run)
    requires prefix != [] && prefix[|prefix| - 1] == Sum(run)
    ensures Regroups(prefix + run, MergeRightFrom(prefix, Sum(run)).cells)
    decreases |prefix|, 0
  {
    var p, front := prefix[|prefix| - 1], prefix[..|prefix| - 1];
    assert Cascades([p] + run) by { CascadesGrow(p, run); }
    MergeRightFromRegroups(front, [p] + run);
    assert front + ([p] + run) == prefix + run by {
      assert prefix == front + [p];
    }
    assert MergeRightFrom(front, Sum([p] + run)).cells == MergeRightFrom(prefix, Sum(run)).cells by {
      CascadesGrow(p, run);
      MergeRightFromStep(prefix, Sum(run));
    }
    RegroupsSame(front + ([p] + run), prefix + run,
                 MergeRightFrom(front, Sum([p] + run)).cells, MergeRightFrom(prefix, Sum(run)).cells);
  }

  lemma RegroupsSame(c: seq<nat>, d: seq<nat>, out: seq<nat>, out2: seq<nat>)
    requires Regroups(c, out) && c == d && out == out2
    ensures Regroups(d, out2)
  {
  }

  /** One step of the backward scan when the tile before `cur` equals it. */
  lemma MergeRightFromStep(prefix: seq<nat>, cur: nat)
    requires prefix != [] && prefix[|prefix| - 1] == cur
    ensures MergeRightFrom(prefix, cur).cells == MergeRightFrom(prefix[..|prefix| - 1], 2 * cur).cells
  {
  }

  /** The tile before the run differs from its total: the run is complete. */
  lemma {:induction false} RegroupsKeepStep(prefix: seq<nat>, run: seq<nat>)
    requires Cascades(run)
    requires prefix != [] && prefix[|prefix| - 1] != Sum(run)
    ensures Regroups(prefix + run, MergeRightFrom(prefix, Sum(run)).cells)
    decreases |prefix|, 0
  {
    var p, front := prefix[|prefix| - 1], prefix[..|prefix| - 1];
    var c, out := prefix + run, MergeRightFrom(prefix, Sum(run)).cells;
    CascadesOne(p);
    MergeRightFromRegroups(front, [p]);
    assert front + [p] == prefix;
    var k := |prefix|;
    assert c[k..] == run && c[..k] == prefix;
    assert out[..|out| - 1] == MergeRightFrom(front, p).cells;
    RegroupsExtend(c, out, k);
  }

  /** One tile is a cascading run of total itself. */
  lemma CascadesOne(x: nat)
    ensures Cascades([x]) && Sum([x]) == x
  {
    assert [x][..0] == [];
  }

  /** A tile equal to the total of a cascading run extends it, doubling the
      total. */
  lemma CascadesGrow(p: nat, run: seq<nat>)
    requires Cascades(run) && p == Sum(run)
    ensures Cascades([p] + run) && Sum([p] + run) == 2 * p
  {
    assert ([p] + run)[1..] == run;
    SumConcat([p], run);
    CascadesOne(p);
  }

  /** A last run of `c` that cascades into the last tile of `out` extends a
      regrouping of the rest. */
  lemma RegroupsExtend(c: seq<nat>, out: seq<nat>, k: nat)
    requires out != [] && k < |c|
    requires Cascades(c[k..]) && Sum(c[k..]) == out[|out| - 1]
    requires Regroups(c[..k], out[..|out| - 1])
    ensures Regroups(c, out)
  {
    assert RegroupsAt(c, out, k);
  }

  /** A run of two unequal tiles does not cascade: `[2,4]` cannot become
      `[6]`. (Unequal tiles can still end in one tile, as `[4,2,2]` becomes
      `[8]`; what `Cascades` rules out is a merge of two unequal values.) */
  lemma UnequalTilesDoNotRegroup(c: seq<nat>)
    requires c == [2, 4]
    ensures !Regroups(c, [6])
  {
    forall k | 0 <= k < |c| && Regroups(c[..k], [])
      ensures !(Cascades(c[k..]) && Sum(c[k..]) == 6)
    {
      assert k == 0;
      assert c[k..][1..] == [4];
      assert Sum([4]) == 4 by { assert [4][..0] == []; }
    }
    assert [6][..0] == [];
  }

  /** Both scans keep the tiles in order and combine only neighbours; the
      forward scan moreover merges each tile at most once. */
  lemma MergeOrder(c: seq<nat>)
    ensures PairsUp(c, MergeLeft(c).cells)
    ensures Regroups(c, MergeRight(c).cells)
  {
    MergeLeftPairsUp(c);
    if c == [] {
    } else {
      var x := c[|c| - 1];
      CascadesOne(x);
      MergeRightFromRegroups(c[..|c| - 1], [x]);
      assert c[..|c| - 1] + [x] == c;
    }
  }

  // ---------------------------------------------------------------------
  // Worked lines
  //
  // Each example takes its line as a parameter fixed by its precondition, so
  // that the functions are unfolded only as far as the proof steps ask.

  /** The non-zero cells of a line of four, written out. */
  lemma CompactFour(s: seq<nat>)
    requires |s| == 4
    ensures Compact(s) == (if s[0] == 0 then [] else [s[0]]) + (if s[1] == 0 then [] else [s[1]]) +
                          (if s[2] == 0 then [] else [s[2]]) + (if s[3] == 0 then [] else [s[3]])
  {
    var s3 := s[..3];
    var s2 := s3[..2];
    var s1 := s2[..1];
    assert Compact(s1) == (if s[0] == 0 then [] else [s[0]]) by { assert s1[..0] == []; }
    assert Compact(s2) == Compact(s1) + (if s[1] == 0 then [] else [s[1]]);
    assert Compact(s3) == Compact(s2) + (if s[2] == 0 then [] else [s[2]]);
  }

  /** `[2,2,2,2]` slid left: two separate merges, worth 8 in all. */
  lemma LeftMergeExample(line: seq<nat>)
    requires line == [2, 2, 2, 2]
    ensures Process(line, true) == LineResult([4, 4, 0, 0], [4, 4])
    ensures Sum(Process(line, true).merges) == 8
  {
    CompactFour(line);
    var c := Compact(line);
    assert c == line;
    assert c[2..][2..] == [];
    assert MergeLeft(c) == LineResult([4, 4], [4, 4]);
    assert Zeros(2) == [0, 0];
    PairScore();
  }

  lemma PairScore()
    ensures Sum([4, 4]) == 8
  {
    assert [4, 4][..1] == [4];
    assert [4][..0] == [];
  }

  /** `[2,0,2,4]` slid left: the zero goes, the two 2s merge, the 4 stays. */
  lemma LeftSkipsZerosExample(line: seq<nat>)
    requires line == [2, 0, 2, 4]
    ensures Process(line, true) == LineResult([4, 4, 0, 0], [4])
  {
    CompactFour(line);
    var c := Compact(line);
    assert c == [2, 2, 4];
    assert c[2..] == [4];
    assert MergeLeft(c) == LineResult([4, 4], [4]);
    assert Zeros(2) == [0, 0];
  }

  /** An empty line stays empty and scores nothing. */
  lemma EmptyLineExample(line: seq<nat>, left: bool)
    requires line == [0, 0, 0, 0]
    ensures Process(line, left) == LineResult([0, 0, 0, 0], [])
  {
    CompactFour(line);
    assert Compact(line) == [];
    assert Zeros(4) == [0, 0, 0, 0];
  }

  /** `[2,2,0,0]` slid left: one merge into a 4 in the first cell. */
  lemma PairLeftExample(line: seq<nat>)
    requires line == [2, 2, 0, 0]
    ensures Process(line, true) == LineResult([4, 0, 0, 0], [4])
  {
    CompactFour(line);
    var c := Compact(line);
    assert c == [2, 2];
    assert c[2..] == [];
    assert MergeLeft(c) == LineResult([4], [4]);
    assert Zeros(3) == [0, 0, 0];
  }

  /** `[8,4,2,2]` slid right cascades into one tile, worth 4 + 8 + 16. */
  lemma RightCascadeExample(line: seq<nat>)
    requires line == [8, 4, 2, 2]
    ensures Process(line, false) == LineResult([0, 0, 0, 16], [4, 8, 16])
    ensures Sum(Process(line, false).merges) == 28
  {
    CascadeMerge(line);
    assert Zeros(3) == [0, 0, 0];
    CascadeScore();
  }

  lemma CascadeMerge(line: seq<nat>)
    requires line == [8, 4, 2, 2]
    ensures Compact(line) == line
    ensures MergeRight(line) == LineResult([16], [4, 8, 16])
  {
    assert line[..3] == [8, 4, 2];
    CascadeSteps();
  }

  lemma CascadeSteps()
    ensures MergeRightFrom([8], 8) == LineResult([16], [16])
    ensures MergeRightFrom([8, 4], 4) == LineResult([16], [8, 16])
    ensures MergeRightFrom([8, 4, 2], 2) == LineResult([16], [4, 8, 16])
  {
    assert [8][..0] == [];
    assert MergeRightFrom([], 16) == LineResult([16], []);
    assert [8, 4][..1] == [8];
    assert [8, 4, 2][..2] == [8, 4];
  }

  lemma CascadeScore()
    ensures Sum([4, 8, 16]) == 28
  {
    assert [4, 8, 16][..2] == [4, 8];
    assert [4, 8][..1] == [4];
    assert [4][..0] == [];
  }

  lemma ShortCascadeSteps()
    ensures MergeRight([4, 2, 2]) == LineResult([8], [4, 8])
    ensures Sum([4, 8]) == 12
  {
    assert [4][..0] == [];
    assert MergeRightFrom([], 8) == LineResult([8], []);
    assert MergeRightFrom([4], 4) == LineResult([8], [8]);
    assert [4, 2, 2][..2] == [4, 2] && [4, 2][..1] == [4];
    assert MergeRightFrom([4, 2], 2) == LineResult([8], [4, 8]);
    assert [4, 8][..1] == [4];
  }

  /** `[4,2,2,0]` slid right: the 2s merge and the 4 they make merges again. */
  lemma RightCascadeWithGapExample(line: seq<nat>)
    requires line == [4, 2, 2, 0]
    ensures Process(line, false) == LineResult([0, 0, 0, 8], [4, 8])
    ensures Sum(Process(line, false).merges) == 12
  {
    CompactFour(line);
    assert Compact(line) == [4, 2, 2];
    ShortCascadeSteps();
    assert Zeros(3) == [0, 0, 0];
  }

  /** `[4,2,0,2]` slid right ends as one 8, not as `[0,0,4,4]`: the mirror
      image of `[2,0,2,4]` slid left (LeftSkipsZerosExample) does not come
      out mirrored. */
  lemma RightIsNotMirroredLeft(line: seq<nat>)
    requires line == [4, 2, 0, 2]
    ensures Process(line, false) == LineResult([0, 0, 0, 8], [4, 8])
    ensures Process(line, false).cells != [0, 0, 4, 4]
  {
    CompactFour(line);
    assert Compact(line) == [4, 2, 2];
    ShortCascadeSteps();
    assert Zeros(3) == [0, 0, 0];
  }

  /** The backward scan can merge one tile twice, which the forward scan
      never does: on `[8,4,2,2]` it makes a single 16 out of four tiles. */
  lemma RightMergesTwice(line: seq<nat>)
    requires line == [8, 4, 2, 2]
    ensures MergeRight(line).cells == [16]
    ensures !PairsUp(line, [16])
  {
    CascadeMerge(line);
    assert line[1..] == [4, 2, 2] && line[2..] == [2, 2];
    assert !PairsUp([4, 2, 2], []) && !PairsUp([2, 2], []);
  }
}
