# Grid world with a robot and particles, in Dafny

This project models the deterministic core of a small localisation simulator. A
square occupancy grid holds integers: 1 is an obstacle and 0 is free space. The grid
is indexed `[row, column]`, and a robot position `(x, y)` maps to row `y` and column
`x` after rounding. The grid has a border of obstacles plus a set of chosen cells.

A robot with a real-valued position moves one unit at a time, and only onto valid
positions. It senses the nearest obstacle in the four directions by scanning its row
and its column outward from its own cell. A population of particles follows each
successful robot move, with added noise, clamped into the grid's bounds. Each particle
keeps a table of landmarks. A landmark is keyed by the obstacle cell the robot
reported, and only its first sighting is stored. A key handler ties these together:
the measurement key makes the robot measure and hands the same record to every
particle, and a movement key moves the robot and, only when the robot moved, every
particle.

Modules, one per source file, plus one for shared values:

- `Common` (common.dfy): Python's `int(round(·))` as `Round` (nearest integer, ties
  to even), the movement table `MovementDeltas`, and the measurement record
  (`Reading`, `Measurements`, with `Entries` giving the record's iteration order).
- `Environments` (environment.dfy): class `Environment` with `const size` and
  `const grid: array2<int>`, written in place by `AddFrame` and `AddRandomObjects`;
  the validity test `IsValidPosition`; the start-up retry loop as `FirstValidStart`.
  The grid test sits behind the bounds test in a short-circuit conjunction, and
  Dafny checks that the read is in range, so the test never indexes out of range.
- `Robots` (robot.dfy): class `Robot` with `TryMove` and `MeasureEnvironment`.
  The four scans are the loops `ScanUp`, `ScanDown`, `ScanLeft` and `ScanRight`.
  Each is proved equal to a reading function (`UpReading`, ...) built on
  `LastOne`/`FirstOne` over a grid column or row. `Sense` is the whole record.
- `Particles` (particle.dfy): class `Particle` with `Move` and
  `RegisterMeasurement`. `MovedPose` and `RegisterAll` are the functions these
  methods are proved against.
- `Dispatch` (dispatch.dfy): the key decision `KeyAction` and the handler `OnKey`.

Coordinates are `real`. The code only adds ±1, 0.5, the supplied noise and the
measured distance, and takes min/max, so real arithmetic is exact for these
operations. Python's `round` on a float is rounded exactly, ties to even.

A particle never revises what it stores: a landmark already in its table is skipped
(particle.py:59), and `weight` is written only once, to 1.0, when the particle is
created (particle.py:15). No member of the model changes a particle's weight.

## Model

| member | source | states |
|---|---|---|
| `Common.Round` | environment.py:30-31 | the result is within 1/2 of the argument, a tie goes to the even integer, and an integral argument is returned unchanged |
| `Common.Entries` | robot.py:64-69 | the record's items in their insertion order Up, Down, Left, Right, each direction exactly once and paired with its own reading; this is the order in which a particle registers them |
| `Environments.Environment.constructor` | environment.py:7-11 | a fresh size x size grid: 1 on every border cell and on every cell named by a chosen position, 0 elsewhere; the grid is framed |
| `Environments.Environment.AddFrame` | environment.py:16-20 | every cell of the first and last row and column becomes 1; every interior cell keeps its value |
| `Environments.Environment.AddRandomObjects` | environment.py:22-26 | exactly the cells (pos div size, pos mod size) of the given positions become 1, border cells included; every other cell keeps its value |
| `Environments.CellOfPosition` | environment.py:23-25 | a position taken from range(size*size) names a row and a column inside the grid |
| `Environments.Environment.IsValidPosition` | environment.py:28-35 | a valid position lies within half a cell of the grid on both axes: -0.5 <= x, y <= size - 0.5 |
| `Environments.Environment.ValidInsideCell` | environment.py:28-35 | a position strictly inside the square of an in-grid cell is valid exactly when that cell holds 0 |
| `Environments.Environment.ValidIsInterior` | environment.py:28-35 | on a framed grid a valid position rounds to an interior cell, so any position that rounds onto the border is invalid |
| `Environments.Environment.ValidityOfRounded` | robot.py:11-13 | validity of the rounded pair equals validity of the position itself, so the start-up test on rounded values tests the start position |
| `Environments.IsValidStart` | robot.py:11-13 | the start-up exit test on the rounded candidate holds exactly when the candidate itself is a valid position |
| `Environments.FirstValidStart` | robot.py:7-14 | over a supplied candidate sequence: the index of the first candidate whose rounded cell is valid, all earlier ones invalid; or no candidate is valid |
| `Robots.LastOne` | robot.py:72-73 | the index found is at or below the start, holds 1, and every cell between it and the start is not 1; or no cell from the start down to 0 holds 1 |
| `Robots.FirstOne` | robot.py:83-84 | the index found is at or above the start, holds 1, and every cell between the start and it is not 1; or no cell from the start to the end holds 1 |
| `Robots.Sense` | robot.py:63-113 | in every direction of the record the obstacle is absent exactly when the distance is 0, and the distance is positive otherwise |
| `Robots.UpIsNearest` | robot.py:72-80 | if row k is the nearest row at or above the robot's row holding 1 in its column, Up reports cell (rounded x, k) at distance y - k - 0.5 when that is positive, and nothing otherwise, however many obstacles lie farther away |
| `Robots.UpIsClear` | robot.py:72-80 | with no 1 from the robot's row up to row 0, Up reports distance 0 and no obstacle |
| `Robots.DownIsNearest` | robot.py:83-91 | the nearest 1 at or below the robot's row, at distance k - y - 0.5 when positive, otherwise nothing |
| `Robots.DownIsClear` | robot.py:83-91 | with no 1 from the robot's row to the last row, Down reports nothing |
| `Robots.LeftIsNearest` | robot.py:94-102 | the nearest 1 at or left of the robot's column in its row, cell (k, rounded y), at distance x - k - 0.5 when positive, otherwise nothing |
| `Robots.LeftIsClear` | robot.py:94-102 | with no 1 from the robot's column to column 0, Left reports nothing |
| `Robots.RightIsNearest` | robot.py:105-113 | the nearest 1 at or right of the robot's column, at distance k - x - 0.5 when positive, otherwise nothing |
| `Robots.RightIsClear` | robot.py:105-113 | with no 1 from the robot's column to the last column, Right reports nothing |
| `Robots.SenseOnFramedGrid` | robot.py:72-113 | on a framed grid, from a valid position, a direction reports no obstacle only when the robot sits exactly on the near edge of the neighbouring obstacle cell in that direction: a .5 tie rounded away from that cell (for Up, rounded y - y == 0.5) |
| `Robots.ScanUp` | robot.py:72-80 | the scan loop with early exit returns the Up reading |
| `Robots.ScanDown` | robot.py:83-91 | the scan loop with early exit returns the Down reading |
| `Robots.ScanLeft` | robot.py:94-102 | the scan loop with early exit returns the Left reading |
| `Robots.ScanRight` | robot.py:105-113 | the scan loop with early exit returns the Right reading |
| `Robots.Robot.constructor` | robot.py:5-28 | started from a candidate that passed the retry loop's exit test, the robot stands on a valid position, with an empty record and the record hidden |
| `Robots.Robot.TryMove` | robot.py:38-54 | returns true iff the direction is in the movement table and position plus its unit step is valid; then the position is exactly old position plus step, without noise, and the record is hidden; otherwise position and the show flag are unchanged; an unknown direction returns false |
| `Robots.Robot.MeasureEnvironment` | robot.py:56-123 | the stored and returned record is the four-direction scan from the current position; the position is unchanged and the record is shown |
| `Particles.Clamp` | particle.py:36-37 | the result lies in [0, hi], equals the argument when it is already there, and is the nearer bound otherwise |
| `Particles.MovedPose` | particle.py:25-37 | an unknown direction leaves the pose; otherwise both coordinates lie in [0, size-1], and a coordinate whose step plus noise stays in range is exactly old value + step + noise |
| `Particles.ExpectedPosition` | particle.py:39-48 | the pose offset by the distance times the direction's unit step from the movement table: Up -y, Down +y, Left -x, Right +x |
| `Particles.RegisterAllKeys` | particle.py:50-64 | the keys after registering are the old keys plus the obstacle cells of the entries with positive distance and an obstacle; no key is removed |
| `Particles.RegisterAllKeepsOld` | particle.py:58-59 | a landmark already present keeps its stored entry |
| `Particles.RegisterAllFirstWins` | particle.py:58-64 | a landmark not present before is stored from the first accepted entry naming it: that entry's distance, direction and expected position |
| `Particles.Particle.constructor` | particle.py:6-23 | started from a candidate that passed the retry loop's exit test, the particle stands on a valid position, at that start, with weight 1.0 and no landmarks |
| `Particles.Particle.Move` | particle.py:25-37 | the new pose is the moved pose for the given noise; weight and landmarks are unchanged |
| `Particles.Particle.RegisterMeasurement` | particle.py:50-64 | the table becomes the record's entries registered in order; its keys are the old keys plus the accepted obstacle cells, old entries are unchanged, and pose and weight are unchanged |
| `Dispatch.Lower` | environment.py:54 | `str.lower()` on ASCII: the same length, every upper-case letter replaced by its lower-case partner, every other character kept, no upper-case letter left |
| `Dispatch.KeyAction` | environment.py:43-61 | the lower-cased key "m" measures; a key in the key table moves in its mapped direction, which is always in the movement table; any other key does nothing |
| `Dispatch.KeyActionIgnoresCase` | environment.py:54-60 | a key and its lower-case form lead to the same action |
| `Dispatch.BroadcastMeasurement` | environment.py:56-58 | every particle registers the same record; poses and weights are unchanged |
| `Dispatch.MoveParticles` | environment.py:64-66 | every particle takes the moved pose for its own noise; weights and landmarks are unchanged |
| `Dispatch.OnKey` | environment.py:54-67 | measurement key: the robot measures without moving, and every particle registers that same record; movement key: particles move, in that direction, exactly when the robot's move succeeded, and otherwise nothing about them changes; other keys change nothing; the robot stays on a valid position |

## Left out

- Rendering: `visualize`, `update_visualization`, the figure set-up in the `Environment` constructor and the callback wiring are drawing code. Only the decision of the key handler and its effect on the robot and the particles are modelled.
- The `print` calls in `try_move`, `measure_environment` and `register_measurement` are output only and are not modelled.
- main.py is not part of this model: its interactive `input()` and the window lifecycle are I/O. As written it calls `Particle(env, robot.x, robot.y)` (main.py:18) against `__init__(self, env)` (particle.py:6), which raises a TypeError before the key handler is wired. The model's particle constructor takes the start the retry loop would pick (particle.py:8-13).
- Randomness is supplied by the caller. The chosen obstacle positions (`random.sample`) are a constructor parameter. The start candidates (`random.uniform`) are a sequence given to `FirstValidStart`. The movement noise (utils.py, Gaussian) is one pair per particle passed to `Move`. No distribution is modelled.
- The retry loops of the robot and particle constructors are unbounded rejection sampling. The model searches a finite candidate sequence (`FirstValidStart`). The constructors take a start that passed the loop's exit test.
- `Robot.set_position`, the `position` property and the unused `landmark_counter` are not modelled; no modelled operation uses them.
- The constructor requires `size >= 1`: on an empty grid, the source fails with an index error when it writes the frame.
- `MeasureEnvironment` requires the robot's rounded position to be a cell of the grid. The robot's invariant (`Robot.ValidIn`, which `TryMove` and `OnKey` keep) guarantees this. Outside the grid, the source would read a wrapped-around cell or fail.
- `OnKey` and the particle loops require the particle list to hold distinct objects, as the list built by main.py does. A repeated object would be moved or updated twice.
- The handler's `if not robot` guard is not modelled: a robot is always present.
- `Lower` lower-cases ASCII letters only; key names are ASCII.
- `calculate_expected_position` returns nothing for a direction other than the four. It is only called with the record's own keys, so the model's `ExpectedPosition` is total over the four directions.
- Each scan writes its reading into the record's dictionary in place. In the model each scan returns the reading and `MeasureEnvironment` stores it in that direction's field. The Python record is one dictionary shared with the particles. `register_measurement` never mutates it, so the model passes it as a value.
- Floating-point rounding is not modelled; coordinates are exact reals.
