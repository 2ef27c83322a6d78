/** The mallets: each is confined to its owner's half of the table; the
    player's follows the keyboard, the AI's chases a target point, and the
    velocity used for hitting the puck is derived from how far it moved
    (class Mallet in game.py). */
module Mallets {
  import opened Table

  /** The keyboard as the player's mallet reads it each tick: A or Left,
      D or Right, W or Up, S or Down. */
  datatype Keys = Keys(left: bool, right: bool, up: bool, down: bool)

  /** A mallet's state. lastX, lastZ hold the position at the start of the last
      update; minZ, maxZ are the bounds of its owner's half. */
  datatype MalletState = MalletState(
    isPlayer: bool,
    x: real, z: real,
    vx: real, vz: real,
    lastX: real, lastZ: real,
    minZ: real, maxZ: real)

  /** Farthest a mallet's centre can be from the long axis. */
  const LimitX: real := TableHalfWidth - MalletRadius

  /** A positive square root of 2, the one irrational value `math.sqrt` yields
      on keyboard input; it is passed in rather than computed. */
  predicate IsRootOfTwo(root2: real)
  {
    root2 > 0.0 && root2 * root2 == 2.0
  }

  /** The z range of the half a mallet starting at zStart belongs to: it keeps
      a margin of 0.5 from the centre line and a radius from the end wall, so a
      mallet never reaches the centre line. */
  function HalfBounds(zStart: real): (r: (real, real))
    ensures r.0 < r.1
    ensures zStart > 0.0 ==> r == (0.5, TableHalfLength - MalletRadius)
    ensures zStart <= 0.0 ==> r == (-(TableHalfLength - MalletRadius), -0.5)
  {
    if zStart > 0.0 then (0.5, TableHalfLength - MalletRadius)
    else (-TableHalfLength + MalletRadius, -0.5)
  }

  /** A new mallet: centred across the table at zStart and at rest. */
  function Initial(isPlayer: bool, zStart: real): MalletState
  {
    var (lo, hi) := HalfBounds(zStart);
    MalletState(isPlayer, 0.0, zStart, 0.0, 0.0, 0.0, zStart, lo, hi)
  }

  /** The mallet lies within the table across and within its own half along it. */
  predicate InBounds(m: MalletState)
  {
    -LimitX <= m.x <= LimitX && m.minZ <= m.z <= m.maxZ
  }

  /** The mallet's bounds are those of the top half. */
  predicate TopHalf(m: MalletState)
  {
    (m.minZ, m.maxZ) == HalfBounds(1.0)
  }

  /** The mallet's bounds are those of the bottom half. */
  predicate BottomHalf(m: MalletState)
  {
    (m.minZ, m.maxZ) == HalfBounds(-1.0)
  }

  /** The arrow or WASD keys as Python's dx, dz: opposite keys cancel. */
  function KeyAxes(k: Keys): (int, int)
  {
    ((if k.left then -1 else 0) + (if k.right then 1 else 0),
     (if k.up then -1 else 0) + (if k.down then 1 else 0))
  }

  /** `math.sqrt(dx*dx + dz*dz)` for a pressed direction: 1 along an axis and
      root2 on a diagonal. */
  function Magnitude(dx: int, dz: int, root2: real): (r: real)
    requires IsRootOfTwo(root2)
    requires -1 <= dx <= 1 && -1 <= dz <= 1 && (dx != 0 || dz != 0)
    ensures r > 0.0 && r * r == (dx * dx + dz * dz) as real
  {
    if dx != 0 && dz != 0 then root2 else 1.0
  }

  /** The normalised keyboard direction. */
  function Direction(k: Keys, root2: real): (real, real)
    requires IsRootOfTwo(root2)
  {
    var (dx, dz) := KeyAxes(k);
    if dx != 0 || dz != 0 then
      var mag := Magnitude(dx, dz, root2);
      (dx as real / mag, dz as real / mag)
    else (0.0, 0.0)
  }

  /** Normalisation keeps the direction of the keys and makes it a unit vector,
      so a diagonal is no faster than a straight move; no key means no move. */
  lemma DirectionIsUnit(k: Keys, root2: real)
    requires IsRootOfTwo(root2)
    ensures var (dx, dz) := KeyAxes(k); var (ux, uz) := Direction(k, root2);
      && ((dx != 0 || dz != 0) ==> SquaredLength(ux, uz) == 1.0)
      && ((dx == 0 && dz == 0) ==> ux == 0.0 && uz == 0.0)
      && (ux < 0.0 <==> dx < 0) && (ux > 0.0 <==> dx > 0)
      && (uz < 0.0 <==> dz < 0) && (uz > 0.0 <==> dz > 0)
  {
    var (dx, dz) := KeyAxes(k);
    if dx != 0 || dz != 0 {
      var mag := Magnitude(dx, dz, root2);
      var a, b := dx as real, dz as real;
      assert (a / mag) * (a / mag) + (b / mag) * (b / mag) == (a * a + b * b) / (mag * mag);
      assert a * a + b * b == mag * mag;
    }
  }

  /** Where the mallet heads this tick before clamping: the player moves
      MalletSpeed units per second along the keyboard direction; the AI closes
      the fraction AiGain * dt of its gap to the target; an AI with no target
      stays put. */
  function Intended(m: MalletState, dt: real, keys: Keys, root2: real, target: Option<(real, real)>): (real, real)
    requires IsRootOfTwo(root2)
  {
    if m.isPlayer then
      var u := Direction(keys, root2);
      var ux, uz := u.0, u.1;
      (Advance(m.x, ux, dt), Advance(m.z, uz, dt))
    else if target.Some? then
      (Chase(m.x, target.value.0, dt), Chase(m.z, target.value.1, dt))
    else (m.x, m.z)
  }

  /** The player's move along one axis: MalletSpeed units per second times the
      component u of the keyboard direction. */
  function Advance(pos: real, u: real, dt: real): real
  {
    pos + u * MalletSpeed * dt
  }

  /** The AI's move along one axis: it closes the fraction AiGain * dt of the
      gap between pos and the target. */
  function Chase(pos: real, target: real, dt: real): real
  {
    pos + (target - pos) * AiGain * dt
  }

  /** Where the mallet ends a tick: the point it headed for, pulled back onto
      the table across and into its own half along. */
  function Moved(m: MalletState, dt: real, keys: Keys, root2: real, target: Option<(real, real)>): (r: (real, real))
    requires IsRootOfTwo(root2)
    ensures -LimitX <= r.0 <= LimitX
    ensures m.minZ <= r.1 && (m.minZ <= m.maxZ ==> r.1 <= m.maxZ)
  {
    var p := Intended(m, dt, keys, root2, target);
    (Clamp(-LimitX, LimitX, p.0), Clamp(m.minZ, m.maxZ, p.1))
  }

  /** One tick of a mallet (Mallet.update): it remembers where it was, moves,
      is clamped to the table across and to its own half along, and takes as
      velocity the distance it actually moved divided by dt. */
  function Step(m: MalletState, dt: real, keys: Keys, root2: real, target: Option<(real, real)>): (r: MalletState)
    requires dt > 0.0 && IsRootOfTwo(root2)
    ensures -LimitX <= r.x <= LimitX
    ensures m.minZ <= r.z && (m.minZ <= m.maxZ ==> r.z <= m.maxZ)
    ensures r.lastX == m.x && r.lastZ == m.z
    ensures r.isPlayer == m.isPlayer && r.minZ == m.minZ && r.maxZ == m.maxZ
  {
    var p := Moved(m, dt, keys, root2, target);
    m.(x := p.0, z := p.1, vx := (p.0 - m.x) / dt, vz := (p.1 - m.z) / dt, lastX := m.x, lastZ := m.z)
  }

  /** The velocity a mallet reports is the distance it actually moved, clamp
      included, over dt: a mallet held against a wall reports no speed into it. */
  lemma StepVelocity(m: MalletState, dt: real, keys: Keys, root2: real, target: Option<(real, real)>)
    requires dt > 0.0 && IsRootOfTwo(root2)
    ensures var r := Step(m, dt, keys, root2, target);
      r.vx * dt == r.x - m.x && r.vz * dt == r.z - m.z
  {
  }

  /** A mallet never leaves its own half: from a top (bottom) mallet a tick
      yields a top (bottom) mallet strictly above (below) the centre line. */
  lemma StepStaysInHalf(m: MalletState, dt: real, keys: Keys, root2: real, target: Option<(real, real)>)
    requires dt > 0.0 && IsRootOfTwo(root2)
    requires TopHalf(m) || BottomHalf(m)
    ensures var r := Step(m, dt, keys, root2, target);
      && InBounds(r)
      && (TopHalf(m) ==> TopHalf(r) && r.z > 0.0)
      && (BottomHalf(m) ==> BottomHalf(r) && r.z < 0.0)
  {
  }

  /** The AI mallet chases its target without overshooting: for a target it can
      reach and a tick short enough that AiGain * dt <= 1, its distance to the
      target along each axis shrinks at least by the factor 1 - AiGain * dt. */
  lemma AiClosesGap(m: MalletState, dt: real, keys: Keys, root2: real, tx: real, tz: real)
    requires dt > 0.0 && IsRootOfTwo(root2) && AiGain * dt <= 1.0
    requires !m.isPlayer
    requires -LimitX <= tx <= LimitX && m.minZ <= tz <= m.maxZ
    ensures var r := Step(m, dt, keys, root2, Some((tx, tz)));
      && Abs(tx - r.x) <= (1.0 - AiGain * dt) * Abs(tx - m.x)
      && Abs(tz - r.z) <= (1.0 - AiGain * dt) * Abs(tz - m.z)
  {
    var p := Moved(m, dt, keys, root2, Some((tx, tz)));
    var x, z := Chase(m.x, tx, dt), Chase(m.z, tz, dt);
    assert p == (Clamp(-LimitX, LimitX, x), Clamp(m.minZ, m.maxZ, z));
    ChaseShrinks(m.x, tx, dt);
    ChaseShrinks(m.z, tz, dt);
    ClampCloser(-LimitX, LimitX, x, tx);
    ClampCloser(m.minZ, m.maxZ, z, tz);
    assert Abs(tx - p.0) <= (1.0 - AiGain * dt) * Abs(tx - m.x);
    assert Abs(tz - p.1) <= (1.0 - AiGain * dt) * Abs(tz - m.z);
  }

  /** Before clamping, one chase step leaves the gap scaled by abs(1 - AiGain * dt):
      for AiGain * dt > 1 the mallet overshoots its target, and for
      AiGain * dt > 2 it ends farther from it than it started. */
  lemma ChaseGap(pos: real, target: real, dt: real)
    ensures Abs(Chase(pos, target, dt) - target) == Abs(1.0 - AiGain * dt) * Abs(target - pos)
  {
    var k := AiGain * dt;
    assert Chase(pos, target, dt) - target == (pos - target) * (1.0 - k);
    AbsProduct(pos - target, 1.0 - k);
  }

  /** For AiGain * dt <= 1 a chase step leaves the fraction 1 - AiGain * dt of the gap. */
  lemma ChaseShrinks(pos: real, target: real, dt: real)
    requires 0.0 <= AiGain * dt <= 1.0
    ensures Abs(Chase(pos, target, dt) - target) == (1.0 - AiGain * dt) * Abs(target - pos)
  {
    ChaseGap(pos, target, dt);
  }

  lemma AbsProduct(a: real, b: real)
    ensures Abs(a * b) == Abs(b) * Abs(a)
  {
  }

  /** Mallet in game.py. Which player owns it and the bounds of its half are
      fixed when it is made. */
  class Mallet {
    const isPlayer: bool
    const minZ: real
    const maxZ: real
    var x: real
    var z: real
    var vx: real
    var vz: real
    var lastX: real
    var lastZ: real

    function State(): MalletState
      reads this
    {
      MalletState(isPlayer, x, z, vx, vz, lastX, lastZ, minZ, maxZ)
    }

    /** Mallet(is_player, z_start, color); the colour is only drawn. */
    constructor (isPlayer: bool, zStart: real)
      ensures State() == Initial(isPlayer, zStart)
    {
      this.isPlayer := isPlayer;
      x := 0.0;
      z := zStart;
      vx := 0.0;
      vz := 0.0;
      lastX := 0.0;
      lastZ := zStart;
      if zStart > 0.0 {
        minZ, maxZ := 0.5, TableHalfLength - MalletRadius;
      } else {
        minZ, maxZ := -TableHalfLength + MalletRadius, -0.5;
      }
    }

    /** Mallet.update; the keyboard state, the square root of 2 and the target
        are passed in. */
    method Update(dt: real, keys: Keys, root2: real, target: Option<(real, real)>)
      requires dt > 0.0 && IsRootOfTwo(root2)
      modifies this
      ensures State() == Step(old(State()), dt, keys, root2, target)
    {
      ghost var m := State();
      lastX, lastZ := x, z;

      if isPlayer {
        var (dx, dz) := KeyAxes(keys);
        var ux, uz := dx as real, dz as real;
        if dx != 0 || dz != 0 {
          var mag := Magnitude(dx, dz, root2);
          ux := ux / mag;
          uz := uz / mag;
        }
        assert (ux, uz) == Direction(keys, root2);
        x := Advance(x, ux, dt);
        z := Advance(z, uz, dt);
      } else if target.Some? {
        var (tx, tz) := target.value;
        x := Chase(x, tx, dt);
        z := Chase(z, tz, dt);
      }
      assert (x, z) == Intended(m, dt, keys, root2, target);

      var limitX := TableHalfWidth - MalletRadius;
      x := Clamp(-limitX, limitX, x);
      z := Clamp(minZ, maxZ, z);
      assert (x, z) == Moved(m, dt, keys, root2, target);

      vx := (x - lastX) / dt;
      vz := (z - lastZ) / dt;
    }
  }
}
