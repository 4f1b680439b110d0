/** Values shared by the grid, the robot and the particles: Python's rounding of a
    coordinate to a cell index, the movement table and the measurement record that
    the robot produces and every particle consumes. */
module Common {

  datatype Option<+T> = None | Some(value: T)

  /** `int(round(r))` for a float `r`: the nearest integer, where a tie between two
      integers goes to the even one (Python's rounding rule). */
  function Round(r: real): (n: int)
    ensures -0.5 <= n as real - r <= 0.5
    ensures (n as real - r == 0.5 || r - n as real == 0.5) ==> n % 2 == 0
    ensures r.Floor as real == r ==> n == r.Floor
  {
    var f := r.Floor;
    var frac := r - f as real;
    if frac < 0.5 then f
    else if frac > 0.5 then f + 1
    else if f % 2 == 0 then f
    else f + 1
  }

  /** The four directions in which the robot senses, in the order of its record. */
  datatype Direction = Up | Down | Left | Right

  /** The unit step of each direction name; x grows to the right, y downwards
      (row 0 is the top row of the grid). */
  const MovementDeltas: map<string, (int, int)> :=
    map["Up" := (0, -1), "Down" := (0, 1), "Left" := (-1, 0), "Right" := (1, 0)]

  /** The name under which a direction appears in the movement table. */
  function Name(d: Direction): (s: string)
    ensures s in MovementDeltas
  {
    match d
    case Up => "Up"
    case Down => "Down"
    case Left => "Left"
    case Right => "Right"
  }

  /** A grid cell written as (column, row), the form of a reported obstacle. */
  type Cell = (int, int)

  /** One direction of the record: the distance to the obstacle's near edge and the
      obstacle's cell, or distance 0 and no obstacle. */
  datatype Reading = Reading(distance: real, obstacle: Option<Cell>)

  const NoReading: Reading := Reading(0.0, None)

  /** The record `measure_environment` returns, one reading per direction. */
  datatype Measurements = Measurements(up: Reading, down: Reading, left: Reading, right: Reading)

  const AllClear: Measurements := Measurements(NoReading, NoReading, NoReading, NoReading)

  /** The reading the record holds for direction `d`, the record's `measurements[d]`. */
  function ReadingOf(m: Measurements, d: Direction): Reading
  {
    match d
    case Up => m.up
    case Down => m.down
    case Left => m.left
    case Right => m.right
  }

  /** The record's entries in the order in which iterating over its items visits them:
      the insertion order Up, Down, Left, Right, each direction once, each with its
      own reading. */
  function Entries(m: Measurements): (es: seq<(Direction, Reading)>)
    ensures |es| == 4
    ensures es[0].0 == Up && es[1].0 == Down && es[2].0 == Left && es[3].0 == Right
    ensures forall i, j :: 0 <= i < j < |es| ==> es[i].0 != es[j].0
    ensures forall i :: 0 <= i < |es| ==> es[i].1 == ReadingOf(m, es[i].0)
  {
    [(Up, m.up), (Down, m.down), (Left, m.left), (Right, m.right)]
  }
}
