/** A particle: a pose hypothesis that follows the robot's moves with added noise,
    clamped to the grid's numeric bounds, and keeps a table of the landmarks it has
    seen, keyed by the obstacle cell that the robot reported. */
module Particles {
  import opened Common
  import opened Environments

  /** `max(0, min(v, hi))`. */
  function Clamp(v: real, hi: real): (r: real)
    requires 0.0 <= hi
    ensures 0.0 <= r <= hi
    ensures 0.0 <= v <= hi ==> r == v
    ensures v < 0.0 ==> r == 0.0
    ensures v > hi ==> r == hi
  {
    var low := if v < hi then v else hi;
    if 0.0 > low then 0.0 else low
  }

  /** The pose after one `move`: unit step plus noise on each axis, each coordinate
      then clamped into [0, size - 1]; an unknown direction leaves the pose. */
  function MovedPose(x: real, y: real, direction: string, size: nat, noiseX: real, noiseY: real): (p: (real, real))
    requires size >= 1
    ensures direction !in MovementDeltas ==> p == (x, y)
    ensures direction in MovementDeltas ==>
              0.0 <= p.0 <= (size - 1) as real && 0.0 <= p.1 <= (size - 1) as real
    ensures direction in MovementDeltas ==>
              var targetX := x + (MovementDeltas[direction].0 as real + noiseX);
              0.0 <= targetX <= (size - 1) as real ==> p.0 == targetX
    ensures direction in MovementDeltas ==>
              var targetY := y + (MovementDeltas[direction].1 as real + noiseY);
              0.0 <= targetY <= (size - 1) as real ==> p.1 == targetY
  {
    if direction !in MovementDeltas then (x, y)
    else
      var (dx, dy) := MovementDeltas[direction];
      (Clamp(x + (dx as real + noiseX), (size - 1) as real),
       Clamp(y + (dy as real + noiseY), (size - 1) as real))
  }

  /** Where an obstacle seen `distance` away in `direction` lies, seen from (x, y). */
  function ExpectedPosition(x: real, y: real, direction: Direction, distance: real): (p: (real, real))
    ensures p.0 == x + MovementDeltas[Name(direction)].0 as real * distance
    ensures p.1 == y + MovementDeltas[Name(direction)].1 as real * distance
  {
    match direction
    case Up => assert MovementDeltas[Name(Up)] == (0, -1); (x, y - distance)
    case Down => assert MovementDeltas[Name(Down)] == (0, 1); (x, y + distance)
    case Left => assert MovementDeltas[Name(Left)] == (-1, 0); (x - distance, y)
    case Right => assert MovementDeltas[Name(Right)] == (1, 0); (x + distance, y)
  }

  /** One stored landmark: the first observation of it. */
  datatype Landmark = Landmark(distance: real, direction: Direction, expectedPosition: (real, real))

  /** An entry of the record is used only with a positive distance and an obstacle. */
  predicate Accepted(r: Reading)
  {
    r.distance > 0.0 && r.obstacle.Some?
  }

  /** The landmark that an accepted entry creates for a particle at (x, y). */
  function NewLandmark(x: real, y: real, e: (Direction, Reading)): Landmark
  {
    Landmark(e.1.distance, e.0, ExpectedPosition(x, y, e.0, e.1.distance))
  }

  /** One entry: stored only if accepted and its obstacle is not yet a key. */
  function Register(landmarks: map<Cell, Landmark>, x: real, y: real, e: (Direction, Reading)): map<Cell, Landmark>
  {
    if Accepted(e.1) && e.1.obstacle.value !in landmarks
    then landmarks[e.1.obstacle.value := NewLandmark(x, y, e)]
    else landmarks
  }

  /** The entries handled in order, first to last. */
  function RegisterAll(landmarks: map<Cell, Landmark>, x: real, y: real, es: seq<(Direction, Reading)>): map<Cell, Landmark>
    decreases |es|
  {
    if es == [] then landmarks
    else Register(RegisterAll(landmarks, x, y, es[..|es| - 1]), x, y, es[|es| - 1])
  }

  /** The obstacle cells of the accepted entries. */
  function AcceptedIds(es: seq<(Direction, Reading)>): set<Cell>
  {
    set i | 0 <= i < |es| && Accepted(es[i].1) :: es[i].1.obstacle.value
  }

  lemma AcceptedIdsExtend(es: seq<(Direction, Reading)>)
    requires es != []
    ensures AcceptedIds(es)
         == AcceptedIds(es[..|es| - 1]) + (if Accepted(es[|es| - 1].1) then {es[|es| - 1].1.obstacle.value} else {})
  {
    var init, last := es[..|es| - 1], es[|es| - 1];
    var extra: set<Cell> := if Accepted(last.1) then {last.1.obstacle.value} else {};
    forall id | id in AcceptedIds(es) ensures id in AcceptedIds(init) + extra {
      var i :| 0 <= i < |es| && Accepted(es[i].1) && es[i].1.obstacle.value == id;
      if i < |es| - 1 {
        assert init[i] == es[i];
      }
    }
    forall id | id in AcceptedIds(init) + extra ensures id in AcceptedIds(es) {
      if id in AcceptedIds(init) {
        var i :| 0 <= i < |init| && Accepted(init[i].1) && init[i].1.obstacle.value == id;
        assert es[i] == init[i];
      } else {
        assert es[|es| - 1] == last;
      }
    }
  }

  /** The keys afterwards are the keys before plus the obstacle cells of the
      accepted entries: nothing is removed, and rejected entries add nothing. */
  lemma {:induction false} RegisterAllKeys(landmarks: map<Cell, Landmark>, x: real, y: real, es: seq<(Direction, Reading)>)
    ensures RegisterAll(landmarks, x, y, es).Keys == landmarks.Keys + AcceptedIds(es)
    decreases |es|
  {
    if es != [] {
      RegisterAllKeys(landmarks, x, y, es[..|es| - 1]);
      AcceptedIdsExtend(es);
    }
  }

  /** A landmark already present keeps its entry. */
  lemma {:induction false} RegisterAllKeepsOld(landmarks: map<Cell, Landmark>, x: real, y: real, es: seq<(Direction, Reading)>, id: Cell)
    requires id in landmarks
    ensures id in RegisterAll(landmarks, x, y, es) && RegisterAll(landmarks, x, y, es)[id] == landmarks[id]
    decreases |es|
  {
    if es != [] {
      RegisterAllKeepsOld(landmarks, x, y, es[..|es| - 1], id);
    }
  }

  /** A landmark not yet present is stored from the first accepted entry that
      reports it: its distance, its direction and the position expected from (x, y). */
  lemma {:induction false} RegisterAllFirstWins(landmarks: map<Cell, Landmark>, x: real, y: real, es: seq<(Direction, Reading)>, i: nat)
    requires i < |es| && Accepted(es[i].1) && es[i].1.obstacle.value !in landmarks
    requires forall j :: 0 <= j < i && Accepted(es[j].1) ==> es[j].1.obstacle.value != es[i].1.obstacle.value
    ensures es[i].1.obstacle.value in RegisterAll(landmarks, x, y, es)
    ensures RegisterAll(landmarks, x, y, es)[es[i].1.obstacle.value]
         == Landmark(es[i].1.distance, es[i].0, ExpectedPosition(x, y, es[i].0, es[i].1.distance))
    decreases |es|
  {
    var init := es[..|es| - 1];
    var id := es[i].1.obstacle.value;
    if i == |es| - 1 {
      RegisterAllKeys(landmarks, x, y, init);
      forall j | 0 <= j < |init| && Accepted(init[j].1) ensures init[j].1.obstacle.value != id {
        assert init[j] == es[j];
      }
    } else {
      assert init[i] == es[i];
      forall j | 0 <= j < i && Accepted(init[j].1) ensures init[j].1.obstacle.value != id {
        assert init[j] == es[j];
      }
      RegisterAllFirstWins(landmarks, x, y, init, i);
    }
  }

  class Particle {
    var x: real
    var y: real
    var weight: real
    var landmarks: map<Cell, Landmark>

    /** Starts at a position that passed the start-up loop's exit test, with weight
        1.0 and no landmarks. */
    constructor (env: Environment, x0: real, y0: real)
      requires env.Valid() && IsValidStart(env, (x0, y0))
      ensures x == x0 && y == y0 && weight == 1.0 && landmarks == map[]
      ensures env.IsValidPosition(x, y)
    {
      x, y := x0, y0;
      weight := 1.0;
      landmarks := map[];
      new;
      env.ValidityOfRounded(x0, y0);
    }

    /** Adds the unit step and the noise to each coordinate, then clamps it into the
        grid's bounds; an unknown direction changes nothing. */
    method Move(direction: string, env: Environment, noiseX: real, noiseY: real)
      requires env.Valid()
      modifies this`x, this`y
      ensures (x, y) == MovedPose(old(x), old(y), direction, env.size, noiseX, noiseY)
      ensures weight == old(weight) && landmarks == old(landmarks)
    {
      if direction !in MovementDeltas {
        return;
      }
      var (dx, dy) := MovementDeltas[direction];
      x := x + (dx as real + noiseX);
      y := y + (dy as real + noiseY);
      x := Clamp(x, (env.size - 1) as real);
      y := Clamp(y, (env.size - 1) as real);
    }

    /** Stores each accepted entry of the record under its obstacle cell unless that
        cell is already a key; the pose and the weight do not change. */
    method RegisterMeasurement(m: Measurements)
      modifies this`landmarks
      ensures landmarks == RegisterAll(old(landmarks), x, y, Entries(m))
      ensures landmarks.Keys == old(landmarks).Keys + AcceptedIds(Entries(m))
      ensures forall id :: id in old(landmarks) ==> landmarks[id] == old(landmarks)[id]
      ensures x == old(x) && y == old(y) && weight == old(weight)
    {
      var es := Entries(m);
      for i := 0 to |es|
        invariant landmarks == RegisterAll(old(landmarks), x, y, es[..i])
      {
        assert es[..i + 1][..i] == es[..i];
        var (direction, data) := es[i];
        if data.distance > 0.0 && data.obstacle.Some? {
          var landmarkId := data.obstacle.value;
          var expectedPos := ExpectedPosition(x, y, direction, data.distance);
          if landmarkId !in landmarks {
            landmarks := landmarks[landmarkId := Landmark(data.distance, direction, expectedPos)];
          }
        }
      }
      assert es[..|es|] == es;
      RegisterAllKeys(old(landmarks), x, y, es);
      forall id | id in old(landmarks) ensures landmarks[id] == old(landmarks)[id] {
        RegisterAllKeepsOld(old(landmarks), x, y, es, id);
      }
    }
  }
}
