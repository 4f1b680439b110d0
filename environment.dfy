/** The occupancy grid: a square of integer cells, 1 for an obstacle and 0 for free
    space, indexed [row, column], with a border of obstacles and a number of chosen
    cells set to 1. */
module Environments {
  import opened Common

  /** True when some position in `positions` names cell (r, c): position p names
      row p div size and column p mod size. */
  predicate Hit(positions: seq<int>, size: nat, r: int, c: int)
    requires size > 0
  {
    exists k :: 0 <= k < |positions| && positions[k] / size == r && positions[k] % size == c
  }

  lemma HitExtend(positions: seq<int>, size: nat, i: nat, r: int, c: int)
    requires size > 0 && i < |positions|
    ensures Hit(positions[..i + 1], size, r, c)
        <==> Hit(positions[..i], size, r, c) || (positions[i] / size == r && positions[i] % size == c)
  {
    var prefix, longer := positions[..i], positions[..i + 1];
    if Hit(longer, size, r, c) {
      var k :| 0 <= k < |longer| && longer[k] / size == r && longer[k] % size == c;
      if k < i {
        assert prefix[k] == longer[k];
      }
    }
    if Hit(prefix, size, r, c) {
      var k :| 0 <= k < |prefix| && prefix[k] / size == r && prefix[k] % size == c;
      assert longer[k] == prefix[k];
    }
    if positions[i] / size == r && positions[i] % size == c {
      assert longer[i] == positions[i];
    }
  }

  /** A position drawn from range(size * size) names a cell inside the grid. */
  lemma CellOfPosition(pos: int, size: nat)
    requires size > 0 && 0 <= pos < size * size
    ensures 0 <= pos / size < size && 0 <= pos % size < size
  {
  }

  class Environment {
    const size: nat
    const grid: array2<int>

    /** The grid is a size x size square with at least one cell. */
    predicate Valid()
    {
      size >= 1 && grid.Length0 == size && grid.Length1 == size
    }

    /** Row 0, the last row, column 0 or the last column. */
    predicate OnBorder(r: int, c: int)
    {
      r == 0 || r == size - 1 || c == 0 || c == size - 1
    }

    /** Every border cell holds an obstacle. */
    predicate Framed()
      requires Valid()
      reads grid
    {
      forall r, c :: 0 <= r < size && 0 <= c < size && OnBorder(r, c) ==> grid[r, c] == 1
    }

    /** A zero grid, then the frame, then one obstacle per chosen position. */
    constructor (n: nat, positions: seq<int>)
      requires n >= 1
      requires forall k :: 0 <= k < |positions| ==> 0 <= positions[k] < n * n
      ensures size == n && Valid() && Framed() && fresh(grid)
      ensures forall r, c :: 0 <= r < n && 0 <= c < n ==>
                grid[r, c] == (if OnBorder(r, c) || Hit(positions, n, r, c) then 1 else 0)
    {
      size := n;
      grid := new int[n, n]((r, c) => 0);
      new;
      AddFrame();
      AddRandomObjects(positions);
    }

    /** Sets the first and last row and the first and last column to 1. */
    method AddFrame()
      requires Valid()
      modifies grid
      ensures forall r, c :: 0 <= r < size && 0 <= c < size ==>
                grid[r, c] == (if OnBorder(r, c) then 1 else old(grid[r, c]))
    {
      var last := size - 1;
      for i := 0 to size
        invariant forall r, c :: 0 <= r < size && 0 <= c < size ==>
                    grid[r, c] == (if ((r == 0 || r == last) && c < i) || ((c == 0 || c == last) && r < i)
                                   then 1 else old(grid[r, c]))
      {
        grid[0, i] := 1;
        grid[last, i] := 1;
        grid[i, 0] := 1;
        grid[i, last] := 1;
      }
    }

    /** Sets the cell (pos div size, pos mod size) to 1 for every given position,
        border cells included; no other cell changes. */
    method AddRandomObjects(positions: seq<int>)
      requires Valid()
      requires forall k :: 0 <= k < |positions| ==> 0 <= positions[k] < size * size
      modifies grid
      ensures forall r, c :: 0 <= r < size && 0 <= c < size ==>
                grid[r, c] == (if Hit(positions, size, r, c) then 1 else old(grid[r, c]))
    {
      for i := 0 to |positions|
        invariant forall r, c :: 0 <= r < size && 0 <= c < size ==>
                    grid[r, c] == (if Hit(positions[..i], size, r, c) then 1 else old(grid[r, c]))
      {
        var pos := positions[i];
        CellOfPosition(pos, size);
        var row, col := pos / size, pos % size;
        grid[row, col] := 1;
        forall r, c | 0 <= r < size && 0 <= c < size
          ensures grid[r, c] == (if Hit(positions[..i + 1], size, r, c) then 1 else old(grid[r, c]))
        {
          HitExtend(positions, size, i, r, c);
        }
      }
      assert positions[..|positions|] == positions;
    }

    /** The cell under (x, y) after rounding lies in the grid and is free; the bounds
        are tested before the grid is read. */
    predicate IsValidPosition(x: real, y: real)
      requires Valid()
      reads grid
      ensures IsValidPosition(x, y) ==>
                && -0.5 <= x <= size as real - 0.5
                && -0.5 <= y <= size as real - 0.5
    {
      var gridX, gridY := Round(x), Round(y);
      0 <= gridX < size && 0 <= gridY < size && grid[gridY, gridX] == 0
    }

    /** A position strictly inside the square of cell (r, c) is valid exactly when
        that cell is free. */
    lemma ValidInsideCell(x: real, y: real, r: int, c: int)
      requires Valid() && 0 <= r < size && 0 <= c < size
      requires -0.5 < x - c as real < 0.5 && -0.5 < y - r as real < 0.5
      ensures IsValidPosition(x, y) <==> grid[r, c] == 0
    {
      assert Round(x) == c && Round(y) == r;
    }

    /** On a framed grid a valid position rounds to an interior cell, so every
        position that rounds onto the border is invalid. */
    lemma ValidIsInterior(x: real, y: real)
      requires Valid() && Framed()
      ensures IsValidPosition(x, y) ==> 1 <= Round(x) <= size - 2 && 1 <= Round(y) <= size - 2
    {
      if IsValidPosition(x, y) {
        var gridX, gridY := Round(x), Round(y);
        assert grid[gridY, gridX] == 0;
        assert !OnBorder(gridY, gridX);
      }
    }

    /** Validity depends on the rounded coordinates only, so testing the rounded
        pair (as the start-up loops do) is the same as testing the position. */
    lemma ValidityOfRounded(x: real, y: real)
      requires Valid()
      ensures IsValidPosition(Round(x) as real, Round(y) as real) == IsValidPosition(x, y)
    {
      assert Round(Round(x) as real) == Round(x);
      assert Round(Round(y) as real) == Round(y);
    }

    /** The cells of column c, top to bottom. */
    function Column(c: int): (s: seq<int>)
      requires Valid() && 0 <= c < size
      reads grid
      ensures |s| == size && forall r :: 0 <= r < size ==> s[r] == grid[r, c]
    {
      seq(size, r requires 0 <= r < size reads grid => grid[r, c])
    }

    /** The cells of row r, left to right. */
    function Row(r: int): (s: seq<int>)
      requires Valid() && 0 <= r < size
      reads grid
      ensures |s| == size && forall c :: 0 <= c < size ==> s[c] == grid[r, c]
    {
      seq(size, c requires 0 <= c < size reads grid => grid[r, c])
    }
  }

  /** True when a start candidate, rounded to a cell, is a valid position: the exit
      test of the robot's and the particles' start-up retry loops. */
  predicate IsValidStart(env: Environment, candidate: (real, real))
    requires env.Valid()
    reads env.grid
    ensures IsValidStart(env, candidate) <==> env.IsValidPosition(candidate.0, candidate.1)
  {
    env.ValidityOfRounded(candidate.0, candidate.1);
    env.IsValidPosition(Round(candidate.0) as real, Round(candidate.1) as real)
  }

  /** The start-up retry loop driven by a supplied sequence of candidates in place of
      random draws: the first candidate that passes the exit test, if any. */
  method FirstValidStart(env: Environment, candidates: seq<(real, real)>) returns (found: bool, i: nat)
    requires env.Valid()
    ensures found ==> i < |candidates| && IsValidStart(env, candidates[i])
    ensures found ==> forall j :: 0 <= j < i ==> !IsValidStart(env, candidates[j])
    ensures !found ==> forall j :: 0 <= j < |candidates| ==> !IsValidStart(env, candidates[j])
  {
    i := 0;
    while i < |candidates|
      invariant i <= |candidates|
      invariant forall j :: 0 <= j < i ==> !IsValidStart(env, candidates[j])
    {
      if IsValidStart(env, candidates[i]) {
        return true, i;
      }
      i := i + 1;
    }
    return false, i;
  }
}
