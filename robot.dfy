/** The robot: a real-valued position that moves one cell at a time only onto valid
    positions, and a sensor that scans the grid outward from the robot's cell in four
    directions for the nearest obstacle. */
module Robots {
  import opened Common
  import opened Environments

  /** The nearest index at or below `hi` whose cell holds 1, scanning s[hi], s[hi-1], ... */
  function LastOne(s: seq<int>, hi: int): (r: Option<nat>)
    requires -1 <= hi < |s|
    ensures r.Some? ==> r.value <= hi && s[r.value] == 1 && forall j :: r.value < j <= hi ==> s[j] != 1
    ensures r.None? ==> forall j :: 0 <= j <= hi ==> s[j] != 1
    decreases hi + 1
  {
    if hi < 0 then None
    else if s[hi] == 1 then Some(hi)
    else LastOne(s, hi - 1)
  }

  /** The nearest index at or above `lo` whose cell holds 1, scanning s[lo], s[lo+1], ... */
  function FirstOne(s: seq<int>, lo: nat): (r: Option<nat>)
    requires lo <= |s|
    ensures r.Some? ==> lo <= r.value < |s| && s[r.value] == 1 && forall j :: lo <= j < r.value ==> s[j] != 1
    ensures r.None? ==> forall j :: lo <= j < |s| ==> s[j] != 1
    decreases |s| - lo
  {
    if lo == |s| then None
    else if s[lo] == 1 then Some(lo)
    else FirstOne(s, lo + 1)
  }

  /** The reading for the first obstacle met, whose near edge is `distance` away:
      recorded only when the distance is positive. */
  function MakeReading(distance: real, cell: Cell): Reading
  {
    if distance > 0.0 then Reading(distance, Some(cell)) else NoReading
  }

  /** A reading has no obstacle exactly when its distance is 0, and a positive
      distance otherwise. */
  predicate WellFormed(r: Reading)
  {
    (r.obstacle.None? <==> r.distance == 0.0) && (r.obstacle.Some? ==> r.distance > 0.0)
  }

  /** The robot's rounded position is a cell of the grid. */
  predicate InGrid(env: Environment, cx: real, cy: real)
  {
    0 <= Round(cx) < env.size && 0 <= Round(cy) < env.size
  }

  /** Up: first 1 in the robot's column from its row towards row 0. */
  function UpReading(env: Environment, cx: real, cy: real): Reading
    requires env.Valid() && InGrid(env, cx, cy)
    reads env.grid
  {
    var rx, ry := Round(cx), Round(cy);
    match LastOne(env.Column(rx), ry)
    case None => NoReading
    case Some(k) => MakeReading(cy - k as real - 0.5, (rx, k))
  }

  /** Down: first 1 in the robot's column from its row towards the last row. */
  function DownReading(env: Environment, cx: real, cy: real): Reading
    requires env.Valid() && InGrid(env, cx, cy)
    reads env.grid
  {
    var rx, ry := Round(cx), Round(cy);
    match FirstOne(env.Column(rx), ry)
    case None => NoReading
    case Some(k) => MakeReading(k as real - cy - 0.5, (rx, k))
  }

  /** Left: first 1 in the robot's row from its column towards column 0. */
  function LeftReading(env: Environment, cx: real, cy: real): Reading
    requires env.Valid() && InGrid(env, cx, cy)
    reads env.grid
  {
    var rx, ry := Round(cx), Round(cy);
    match LastOne(env.Row(ry), rx)
    case None => NoReading
    case Some(k) => MakeReading(cx - k as real - 0.5, (k, ry))
  }

  /** Right: first 1 in the robot's row from its column towards the last column. */
  function RightReading(env: Environment, cx: real, cy: real): Reading
    requires env.Valid() && InGrid(env, cx, cy)
    reads env.grid
  {
    var rx, ry := Round(cx), Round(cy);
    match FirstOne(env.Row(ry), rx)
    case None => NoReading
    case Some(k) => MakeReading(k as real - cx - 0.5, (k, ry))
  }

  /** The record a measurement from (cx, cy) produces. */
  function Sense(env: Environment, cx: real, cy: real): (m: Measurements)
    requires env.Valid() && InGrid(env, cx, cy)
    reads env.grid
    ensures WellFormed(m.up) && WellFormed(m.down) && WellFormed(m.left) && WellFormed(m.right)
  {
    Measurements(UpReading(env, cx, cy), DownReading(env, cx, cy),
                 LeftReading(env, cx, cy), RightReading(env, cx, cy))
  }

  // The Up reading in terms of the grid: the scan stops at the nearest occupied cell
  // k at or above the robot's row, and records it only when its edge is ahead.

  lemma UpIsNearest(env: Environment, cx: real, cy: real, k: int)
    requires env.Valid() && InGrid(env, cx, cy)
    requires 0 <= k <= Round(cy) && env.grid[k, Round(cx)] == 1
    requires forall j :: k < j <= Round(cy) ==> env.grid[j, Round(cx)] != 1
    ensures UpReading(env, cx, cy)
         == if cy - k as real - 0.5 > 0.0 then Reading(cy - k as real - 0.5, Some((Round(cx), k))) else NoReading
  {
    var s := env.Column(Round(cx));
    assert s[k] == 1;
    assert LastOne(s, Round(cy)) == Some(k);
  }

  lemma UpIsClear(env: Environment, cx: real, cy: real)
    requires env.Valid() && InGrid(env, cx, cy)
    requires forall j :: 0 <= j <= Round(cy) ==> env.grid[j, Round(cx)] != 1
    ensures UpReading(env, cx, cy) == NoReading
  {
    var s := env.Column(Round(cx));
    assert LastOne(s, Round(cy)) == None;
  }

  lemma DownIsNearest(env: Environment, cx: real, cy: real, k: int)
    requires env.Valid() && InGrid(env, cx, cy)
    requires Round(cy) <= k < env.size && env.grid[k, Round(cx)] == 1
    requires forall j :: Round(cy) <= j < k ==> env.grid[j, Round(cx)] != 1
    ensures DownReading(env, cx, cy)
         == if k as real - cy - 0.5 > 0.0 then Reading(k as real - cy - 0.5, Some((Round(cx), k))) else NoReading
  {
    var s := env.Column(Round(cx));
    assert s[k] == 1;
    assert FirstOne(s, Round(cy)) == Some(k);
  }

  lemma DownIsClear(env: Environment, cx: real, cy: real)
    requires env.Valid() && InGrid(env, cx, cy)
    requires forall j :: Round(cy) <= j < env.size ==> env.grid[j, Round(cx)] != 1
    ensures DownReading(env, cx, cy) == NoReading
  {
    var s := env.Column(Round(cx));
    assert FirstOne(s, Round(cy)) == None;
  }

  lemma LeftIsNearest(env: Environment, cx: real, cy: real, k: int)
    requires env.Valid() && InGrid(env, cx, cy)
    requires 0 <= k <= Round(cx) && env.grid[Round(cy), k] == 1
    requires forall j :: k < j <= Round(cx) ==> env.grid[Round(cy), j] != 1
    ensures LeftReading(env, cx, cy)
         == if cx - k as real - 0.5 > 0.0 then Reading(cx - k as real - 0.5, Some((k, Round(cy)))) else NoReading
  {
    var s := env.Row(Round(cy));
    assert s[k] == 1;
    assert LastOne(s, Round(cx)) == Some(k);
  }

  lemma LeftIsClear(env: Environment, cx: real, cy: real)
    requires env.Valid() && InGrid(env, cx, cy)
    requires forall j :: 0 <= j <= Round(cx) ==> env.grid[Round(cy), j] != 1
    ensures LeftReading(env, cx, cy) == NoReading
  {
    var s := env.Row(Round(cy));
    assert LastOne(s, Round(cx)) == None;
  }

  lemma RightIsNearest(env: Environment, cx: real, cy: real, k: int)
    requires env.Valid() && InGrid(env, cx, cy)
    requires Round(cx) <= k < env.size && env.grid[Round(cy), k] == 1
    requires forall j :: Round(cx) <= j < k ==> env.grid[Round(cy), j] != 1
    ensures RightReading(env, cx, cy)
         == if k as real - cx - 0.5 > 0.0 then Reading(k as real - cx - 0.5, Some((k, Round(cy)))) else NoReading
  {
    var s := env.Row(Round(cy));
    assert s[k] == 1;
    assert FirstOne(s, Round(cx)) == Some(k);
  }

  lemma RightIsClear(env: Environment, cx: real, cy: real)
    requires env.Valid() && InGrid(env, cx, cy)
    requires forall j :: Round(cx) <= j < env.size ==> env.grid[Round(cy), j] != 1
    ensures RightReading(env, cx, cy) == NoReading
  {
    var s := env.Row(Round(cy));
    assert FirstOne(s, Round(cx)) == None;
  }

  /** On a framed grid, from a valid position, every scan meets an obstacle (the
      border at the latest), and the robot's own cell is free, so the nearest
      obstacle's edge is never behind the robot. A direction therefore reports no
      obstacle only when that edge is exactly at distance 0: the robot sits on a
      half-cell tie, rounded away from that obstacle. */
  lemma SenseOnFramedGrid(env: Environment, cx: real, cy: real)
    requires env.Valid() && env.Framed() && env.IsValidPosition(cx, cy)
    ensures InGrid(env, cx, cy)
    ensures var m := Sense(env, cx, cy);
            && (m.up.obstacle.None? ==> Round(cy) as real - cy == 0.5)
            && (m.down.obstacle.None? ==> cy - Round(cy) as real == 0.5)
            && (m.left.obstacle.None? ==> Round(cx) as real - cx == 0.5)
            && (m.right.obstacle.None? ==> cx - Round(cx) as real == 0.5)
  {
    var rx, ry := Round(cx), Round(cy);
    var last := env.size - 1;
    env.ValidIsInterior(cx, cy);
    var col, row := env.Column(rx), env.Row(ry);
    assert env.OnBorder(0, rx) && env.OnBorder(last, rx);
    assert env.OnBorder(ry, 0) && env.OnBorder(ry, last);
    assert col[0] == 1 && col[last] == 1 && col[ry] != 1;
    assert row[0] == 1 && row[last] == 1 && row[rx] != 1;
  }

  /** The upward scan from (cx, cy): the loop at robot.py lines 72-80. */
  method ScanUp(env: Environment, cx: real, cy: real) returns (r: Reading)
    requires env.Valid() && InGrid(env, cx, cy)
    ensures r == UpReading(env, cx, cy)
  {
    var rx, ry := Round(cx), Round(cy);
    r := NoReading;
    var y := ry;
    while y >= 0
      invariant -1 <= y <= ry
      invariant forall j :: y < j <= ry ==> env.grid[j, rx] != 1
    {
      if env.grid[y, rx] == 1 {
        var distance := cy - y as real - 0.5;
        if distance > 0.0 {
          r := Reading(distance, Some((rx, y)));
        }
        UpIsNearest(env, cx, cy, y);
        break;
      }
      y := y - 1;
    }
    if y < 0 {
      UpIsClear(env, cx, cy);
    }
  }

  /** The downward scan from (cx, cy): the loop at robot.py lines 83-91. */
  method ScanDown(env: Environment, cx: real, cy: real) returns (r: Reading)
    requires env.Valid() && InGrid(env, cx, cy)
    ensures r == DownReading(env, cx, cy)
  {
    var rx, ry := Round(cx), Round(cy);
    r := NoReading;
    var y := ry;
    while y < env.size
      invariant ry <= y <= env.size
      invariant forall j :: ry <= j < y ==> env.grid[j, rx] != 1
    {
      if env.grid[y, rx] == 1 {
        var distance := y as real - cy - 0.5;
        if distance > 0.0 {
          r := Reading(distance, Some((rx, y)));
        }
        DownIsNearest(env, cx, cy, y);
        break;
      }
      y := y + 1;
    }
    if y == env.size {
      DownIsClear(env, cx, cy);
    }
  }

  /** The leftward scan from (cx, cy): the loop at robot.py lines 94-102. */
  method ScanLeft(env: Environment, cx: real, cy: real) returns (r: Reading)
    requires env.Valid() && InGrid(env, cx, cy)
    ensures r == LeftReading(env, cx, cy)
  {
    var rx, ry := Round(cx), Round(cy);
    r := NoReading;
    var x := rx;
    while x >= 0
      invariant -1 <= x <= rx
      invariant forall j :: x < j <= rx ==> env.grid[ry, j] != 1
    {
      if env.grid[ry, x] == 1 {
        var distance := cx - x as real - 0.5;
        if distance > 0.0 {
          r := Reading(distance, Some((x, ry)));
        }
        LeftIsNearest(env, cx, cy, x);
        break;
      }
      x := x - 1;
    }
    if x < 0 {
      LeftIsClear(env, cx, cy);
    }
  }

  /** The rightward scan from (cx, cy): the loop at robot.py lines 105-113. */
  method ScanRight(env: Environment, cx: real, cy: real) returns (r: Reading)
    requires env.Valid() && InGrid(env, cx, cy)
    ensures r == RightReading(env, cx, cy)
  {
    var rx, ry := Round(cx), Round(cy);
    r := NoReading;
    var x := rx;
    while x < env.size
      invariant rx <= x <= env.size
      invariant forall j :: rx <= j < x ==> env.grid[ry, j] != 1
    {
      if env.grid[ry, x] == 1 {
        var distance := x as real - cx - 0.5;
        if distance > 0.0 {
          r := Reading(distance, Some((x, ry)));
        }
        RightIsNearest(env, cx, cy, x);
        break;
      }
      x := x + 1;
    }
    if x == env.size {
      RightIsClear(env, cx, cy);
    }
  }

  /** The robot can step in `direction`: the name is in the movement table and the
      target position, one unit step away, is valid. */
  predicate CanMove(env: Environment, x: real, y: real, direction: string)
    requires env.Valid()
    reads env.grid
  {
    direction in MovementDeltas
    && env.IsValidPosition(x + MovementDeltas[direction].0 as real, y + MovementDeltas[direction].1 as real)
  }

  class Robot {
    var x: real
    var y: real
    var measurements: Measurements
    var showMeasurements: bool

    /** The robot stands on a valid position of `env`. */
    predicate ValidIn(env: Environment)
      reads this, env.grid
    {
      env.Valid() && env.IsValidPosition(x, y)
    }

    /** Starts at a position that passed the start-up loop's exit test. */
    constructor (env: Environment, x0: real, y0: real)
      requires env.Valid() && IsValidStart(env, (x0, y0))
      ensures x == x0 && y == y0 && ValidIn(env)
      ensures measurements == AllClear && !showMeasurements
    {
      x, y := x0, y0;
      measurements := AllClear;
      showMeasurements := false;
      new;
      env.ValidityOfRounded(x0, y0);
    }

    /** Moves one unit step, without noise, when the target is valid; an unknown
        direction or an invalid target changes nothing. */
    method TryMove(direction: string, env: Environment) returns (moved: bool)
      requires env.Valid()
      modifies this`x, this`y, this`showMeasurements
      ensures moved == CanMove(env, old(x), old(y), direction)
      ensures moved ==>
                && x == old(x) + MovementDeltas[direction].0 as real
                && y == old(y) + MovementDeltas[direction].1 as real
                && !showMeasurements && ValidIn(env)
      ensures !moved ==> x == old(x) && y == old(y) && showMeasurements == old(showMeasurements)
      ensures measurements == old(measurements)
    {
      if direction !in MovementDeltas {
        return false;
      }
      var (dx, dy) := MovementDeltas[direction];
      var newX := x + dx as real;
      var newY := y + dy as real;
      if env.IsValidPosition(newX, newY) {
        x := newX;
        y := newY;
        showMeasurements := false;
        return true;
      }
      return false;
    }

    /** Resets the record, scans the four directions from the current position,
        shows the record and returns it; the position does not change. */
    method MeasureEnvironment(env: Environment) returns (m: Measurements)
      requires env.Valid() && InGrid(env, x, y)
      modifies this`measurements, this`showMeasurements
      ensures m == measurements && m == Sense(env, x, y)
      ensures showMeasurements
      ensures x == old(x) && y == old(y)
    {
      var currentX, currentY := x, y;
      measurements := AllClear;
      var up := ScanUp(env, currentX, currentY);
      measurements := measurements.(up := up);
      var down := ScanDown(env, currentX, currentY);
      measurements := measurements.(down := down);
      var left := ScanLeft(env, currentX, currentY);
      measurements := measurements.(left := left);
      var right := ScanRight(env, currentX, currentY);
      measurements := measurements.(right := right);
      showMeasurements := true;
      m := measurements;
    }
  }
}
