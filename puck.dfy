/** The puck: the serve from the centre spot and the per-tick motion with
    friction and wall bounces (class Puck in game.py). */
module Pucks {
  import opened Table

  /** The puck's place on the table and its velocity. */
  datatype PuckState = PuckState(x: real, z: real, vx: real, vz: real)

  /** The random draws of a serve: whether the puck heads for the top end
      (`random.random() > 0.5`), its speed along the table
      (`random.uniform(5, 8)`) and its drift across it (`random.uniform(-4, 4)`). */
  datatype Serve = Serve(towardTop: bool, speed: real, drift: real)

  predicate ValidServe(s: Serve)
  {
    5.0 <= s.speed <= 8.0 && -4.0 <= s.drift <= 4.0
  }

  /** Farthest the puck's centre can be from the long axis before it touches a side wall. */
  const LimitX: real := TableHalfWidth - PuckRadius
  /** Farthest the puck's centre can be from the centre line before it touches an end wall. */
  const LimitZ: real := TableHalfLength - PuckRadius

  /** The puck just after a serve: at rest on the centre spot, then sent towards
      one end at 5 to 8 units per second with at most 4 units of drift. */
  function Served(s: Serve): (r: PuckState)
    requires ValidServe(s)
    ensures r.x == 0.0 && r.z == 0.0
    ensures 5.0 <= Abs(r.vz) <= 8.0 && Abs(r.vx) <= 4.0
    ensures r.vz > 0.0 <==> s.towardTop
  {
    PuckState(0.0, 0.0, s.drift, if s.towardTop then s.speed else -s.speed)
  }

  /** The first half of a tick: the puck travels dt seconds at its velocity,
      and then friction takes its share of that velocity. */
  function Drift(p: PuckState, dt: real): (r: PuckState)
    ensures r.vx == Friction * p.vx && r.vz == Friction * p.vz
    ensures r.x - p.x == p.vx * dt && r.z - p.z == p.vz * dt
  {
    PuckState(p.x + p.vx * dt, p.z + p.vz * dt, p.vx * Friction, p.vz * Friction)
  }

  /** The second half of a tick: a side wall first, else an end wall outside
      the goal mouth. The flag is Python's `'wall'` (true) or `None` (false). */
  function Walls(d: PuckState): (r: (PuckState, bool))
    ensures Abs(r.0.x) <= LimitX
    ensures Abs(r.0.vx) <= Abs(d.vx) && Abs(r.0.vz) <= Abs(d.vz)
    ensures r.1 <==> r.0.x != d.x || r.0.z != d.z
  {
    if d.x > LimitX then (d.(x := LimitX, vx := d.vx * -WallRestitution), true)
    else if d.x < -LimitX then (d.(x := -LimitX, vx := d.vx * -WallRestitution), true)
    else if Abs(d.x) > GoalWidth / 2.0 && d.z > LimitZ then
      (d.(z := LimitZ, vz := d.vz * -WallRestitution), true)
    else if Abs(d.x) > GoalWidth / 2.0 && d.z < -LimitZ then
      (d.(z := -LimitZ, vz := d.vz * -WallRestitution), true)
    else (d, false)
  }

  /** One tick of the puck (Puck.update). */
  function Step(p: PuckState, dt: real): (r: (PuckState, bool))
    ensures Abs(r.0.x) <= LimitX
    ensures Abs(r.0.vx) <= Abs(p.vx) && Abs(r.0.vz) <= Abs(p.vz)
    ensures r.1 <==> r.0.x != p.x + p.vx * dt || r.0.z != p.z + p.vz * dt
  {
    Walls(Drift(p, dt))
  }

  /** When no wall is in the way the puck only drifts: it has travelled with its
      old velocity and then lost speed to friction. */
  lemma StepMovesThenSlows(p: PuckState, dt: real)
    requires var d := Drift(p, dt); Abs(d.x) <= LimitX && (Abs(d.x) <= GoalWidth / 2.0 || Abs(d.z) <= LimitZ)
    ensures Step(p, dt) == (PuckState(p.x + p.vx * dt, p.z + p.vz * dt, Friction * p.vx, Friction * p.vz), false)
  {
  }

  /** A side-wall hit pins the puck against that wall, reverses and damps the
      already slowed vx, reports a wall, and skips the end-wall test that tick:
      z keeps its unclamped value. */
  lemma StepSideWall(p: PuckState, dt: real)
    requires Abs(Drift(p, dt).x) > LimitX
    ensures var (q, hit) := Step(p, dt);
      && hit
      && q.x == (if p.x + p.vx * dt > 0.0 then LimitX else -LimitX)
      && q.vx == -WallRestitution * (Friction * p.vx)
      && q.z == p.z + p.vz * dt && q.vz == Friction * p.vz
  {
  }

  /** Outside the goal mouth the end walls hold the puck on the table: z ends
      within ±LimitZ, and a puck that went past is put back on the wall with vz
      reversed and damped. */
  lemma StepEndWall(p: PuckState, dt: real)
    requires GoalWidth / 2.0 < Abs(Drift(p, dt).x) <= LimitX
    ensures var (q, hit) := Step(p, dt);
      && Abs(q.z) <= LimitZ
      && q.x == p.x + p.vx * dt && q.vx == Friction * p.vx
      && (hit <==> Abs(p.z + p.vz * dt) > LimitZ)
      && (hit ==> q.z == (if p.z + p.vz * dt > 0.0 then LimitZ else -LimitZ))
      && (hit ==> q.vz == -WallRestitution * (Friction * p.vz))
  {
  }

  /** Inside the goal mouth nothing stops the puck along the table: z is never
      clamped there and no wall is reported, so the puck can leave the table. */
  lemma StepGoalMouth(p: PuckState, dt: real)
    requires Abs(Drift(p, dt).x) <= GoalWidth / 2.0
    ensures var (q, hit) := Step(p, dt);
      !hit && q.z == p.z + p.vz * dt && q.x == p.x + p.vx * dt
  {
  }

  /** Because a side-wall hit returns before the end-wall test, a puck driven
      into a corner can finish the tick past the end line well outside the
      goal mouth (here at x = 5.6, z = 10.5). */
  lemma CornerEscape()
    ensures var (q, hit) := Step(PuckState(5.5, 9.5, 10.0, 10.0), 0.1);
      hit && q.x == LimitX && q.x > GoalWidth / 2.0 && q.z > TableHalfLength
  {
  }

  /** Puck in game.py: its state is the four fields that the physics uses. */
  class Puck {
    var x: real
    var z: real
    var vx: real
    var vz: real

    function State(): PuckState
      reads this
    {
      PuckState(x, z, vx, vz)
    }

    /** Puck(): a new puck is served straight away. */
    constructor (serve: Serve)
      requires ValidServe(serve)
      ensures State() == Served(serve)
    {
      new;
      Reset(serve);
    }

    /** Puck.reset: back to the centre spot and served with the given draws. */
    method Reset(serve: Serve)
      requires ValidServe(serve)
      modifies this
      ensures State() == Served(serve)
    {
      x := 0.0;
      z := 0.0;
      vx := 0.0;
      vz := 0.0;
      if serve.towardTop {
        vz := serve.speed;
        vx := serve.drift;
      } else {
        vz := -serve.speed;
        vx := serve.drift;
      }
    }

    /** Puck.update: one tick; hitWall is true where the source returns 'wall'. */
    method Update(dt: real) returns (hitWall: bool)
      modifies this
      ensures (State(), hitWall) == Step(old(State()), dt)
    {
      x := x + vx * dt;
      z := z + vz * dt;

      vx := vx * Friction;
      vz := vz * Friction;
      assert State() == Drift(old(State()), dt);

      var limitX := TableHalfWidth - PuckRadius;
      if x > limitX {
        x := limitX;
        vx := vx * -WallRestitution;
        return true;
      } else if x < -limitX {
        x := -limitX;
        vx := vx * -WallRestitution;
        return true;
      }

      var limitZ := TableHalfLength - PuckRadius;
      if Abs(x) > GoalWidth / 2.0 {
        if z > limitZ {
          z := limitZ;
          vz := vz * -WallRestitution;
          return true;
        } else if z < -limitZ {
          z := -limitZ;
          vz := vz * -WallRestitution;
          return true;
        }
      }
      return false;
    }
  }
}
