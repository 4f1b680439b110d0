/** The key handler of the interactive view: the measurement key makes the robot
    measure and hands the record to every particle; a movement key moves the robot
    and, only when the robot actually moved, every particle in the same direction. */
module Dispatch {
  import opened Common
  import opened Environments
  import opened Robots
  import opened Particles

  /** What a key press asks for. */
  datatype Action = Measure | Step(direction: string) | Ignore

  /** Arrow keys and WASD, by their lower-case names, to direction names. */
  const KeyMapping: map<string, string> :=
    map["up" := "Up", "down" := "Down", "left" := "Left", "right" := "Right",
        "w" := "Up", "s" := "Down", "a" := "Left", "d" := "Right"]

  function LowerChar(ch: char): char
  {
    if 'A' <= ch <= 'Z' then (ch as int - 'A' as int + 'a' as int) as char else ch
  }

  /** `str.lower()` on key names, which are ASCII: every upper-case letter becomes
      its lower-case partner, every other character is kept, and no upper-case
      letter remains. */
  function Lower(s: string): (r: string)
    ensures |r| == |s|
    ensures forall i :: 0 <= i < |s| ==> !('A' <= r[i] <= 'Z')
    ensures forall i :: 0 <= i < |s| && 'A' <= s[i] <= 'Z' ==> r[i] as int == s[i] as int + 32
    ensures forall i :: 0 <= i < |s| && !('A' <= s[i] <= 'Z') ==> r[i] == s[i]
  {
    seq(|s|, i requires 0 <= i < |s| => LowerChar(s[i]))
  }

  lemma LowerIdempotent(s: string)
    ensures Lower(Lower(s)) == Lower(s)
  {
    assert forall i :: 0 <= i < |s| ==> LowerChar(LowerChar(s[i])) == LowerChar(s[i]);
  }

  /** The decision of the key handler. Every direction it produces is a key of the
      movement table, so the robot's unknown-direction branch is never taken from
      the keyboard. */
  function KeyAction(key: string): (a: Action)
    ensures a == Measure <==> Lower(key) == "m"
    ensures a.Step? <==> Lower(key) in KeyMapping
    ensures a.Step? ==> a.direction == KeyMapping[Lower(key)] && a.direction in MovementDeltas
  {
    var k := Lower(key);
    if k == "m" then Measure
    else if k in KeyMapping then Step(KeyMapping[k])
    else Ignore
  }

  /** The key handler's decision ignores case: "M" measures like "m", "W" moves up
      like "w". */
  lemma KeyActionIgnoresCase(key: string)
    ensures KeyAction(key) == KeyAction(Lower(key))
  {
    LowerIdempotent(key);
  }

  /** No two slots of the particle list are the same object. */
  predicate Distinct(particles: seq<Particle>)
  {
    forall i, j :: 0 <= i < j < |particles| ==> particles[i] != particles[j]
  }

  /** Every particle registers the same record, in list order. */
  method BroadcastMeasurement(particles: seq<Particle>, m: Measurements)
    requires Distinct(particles)
    modifies particles
    ensures forall k :: 0 <= k < |particles| ==>
              && particles[k].x == old(particles[k].x) && particles[k].y == old(particles[k].y)
              && particles[k].weight == old(particles[k].weight)
              && particles[k].landmarks == RegisterAll(old(particles[k].landmarks), particles[k].x, particles[k].y, Entries(m))
  {
    for i := 0 to |particles|
      invariant forall k :: 0 <= k < |particles| ==>
                  && particles[k].x == old(particles[k].x) && particles[k].y == old(particles[k].y)
                  && particles[k].weight == old(particles[k].weight)
      invariant forall k :: 0 <= k < i ==>
                  particles[k].landmarks == RegisterAll(old(particles[k].landmarks), particles[k].x, particles[k].y, Entries(m))
      invariant forall k :: i <= k < |particles| ==> particles[k].landmarks == old(particles[k].landmarks)
    {
      particles[i].RegisterMeasurement(m);
    }
  }

  /** Every particle moves in `direction`, particle i with noise[i]. */
  method MoveParticles(particles: seq<Particle>, direction: string, env: Environment, noise: seq<(real, real)>)
    requires env.Valid() && |noise| == |particles| && Distinct(particles)
    modifies particles
    ensures forall k :: 0 <= k < |particles| ==>
              && (particles[k].x, particles[k].y)
                 == MovedPose(old(particles[k].x), old(particles[k].y), direction, env.size, noise[k].0, noise[k].1)
              && particles[k].weight == old(particles[k].weight)
              && particles[k].landmarks == old(particles[k].landmarks)
  {
    for i := 0 to |particles|
      invariant forall k :: 0 <= k < i ==>
                  && (particles[k].x, particles[k].y)
                     == MovedPose(old(particles[k].x), old(particles[k].y), direction, env.size, noise[k].0, noise[k].1)
                  && particles[k].weight == old(particles[k].weight)
                  && particles[k].landmarks == old(particles[k].landmarks)
      invariant forall k :: i <= k < |particles| ==>
                  && particles[k].x == old(particles[k].x) && particles[k].y == old(particles[k].y)
                  && particles[k].weight == old(particles[k].weight)
                  && particles[k].landmarks == old(particles[k].landmarks)
    {
      particles[i].Move(direction, env, noise[i].0, noise[i].1);
    }
  }

  /** One key press. `noise[i]` is the noise drawn for particle i's move. */
  method OnKey(env: Environment, robot: Robot, particles: seq<Particle>, key: string, noise: seq<(real, real)>)
    requires robot.ValidIn(env)
    requires |noise| == |particles| && Distinct(particles)
    modifies robot, particles
    ensures robot.ValidIn(env)
    ensures KeyAction(key) == Measure ==>
              && robot.x == old(robot.x) && robot.y == old(robot.y)
              && robot.measurements == Sense(env, robot.x, robot.y) && robot.showMeasurements
              && forall i :: 0 <= i < |particles| ==>
                   && particles[i].x == old(particles[i].x) && particles[i].y == old(particles[i].y)
                   && particles[i].weight == old(particles[i].weight)
                   && particles[i].landmarks
                      == RegisterAll(old(particles[i].landmarks), particles[i].x, particles[i].y, Entries(robot.measurements))
    ensures KeyAction(key).Step? ==>
              var d := KeyAction(key).direction;
              var moved := CanMove(env, old(robot.x), old(robot.y), d);
              && robot.measurements == old(robot.measurements)
              && (moved ==>
                    && robot.x == old(robot.x) + MovementDeltas[d].0 as real
                    && robot.y == old(robot.y) + MovementDeltas[d].1 as real
                    && !robot.showMeasurements)
              && (!moved ==>
                    && robot.x == old(robot.x) && robot.y == old(robot.y)
                    && robot.showMeasurements == old(robot.showMeasurements))
              && forall i :: 0 <= i < |particles| ==>
                   && (particles[i].x, particles[i].y)
                      == (if moved
                          then MovedPose(old(particles[i].x), old(particles[i].y), d, env.size, noise[i].0, noise[i].1)
                          else (old(particles[i].x), old(particles[i].y)))
                   && particles[i].weight == old(particles[i].weight)
                   && particles[i].landmarks == old(particles[i].landmarks)
    ensures KeyAction(key) == Ignore ==>
              && robot.x == old(robot.x) && robot.y == old(robot.y)
              && robot.measurements == old(robot.measurements)
              && robot.showMeasurements == old(robot.showMeasurements)
              && forall i :: 0 <= i < |particles| ==>
                   && particles[i].x == old(particles[i].x) && particles[i].y == old(particles[i].y)
                   && particles[i].weight == old(particles[i].weight)
                   && particles[i].landmarks == old(particles[i].landmarks)
  {
    var action := KeyAction(key);
    match action
    case Measure =>
      var measurements := robot.MeasureEnvironment(env);
      BroadcastMeasurement(particles, measurements);
    case Step(direction) =>
      var moved := robot.TryMove(direction, env);
      if moved {
        MoveParticles(particles, direction, env, noise);
      }
    case Ignore =>
  }
}
