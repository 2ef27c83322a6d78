/** Mallet–puck contact (Game.check_collision in game.py): two circles that
    overlap are separated by pushing the puck out along the line of centres,
    and a puck that is not already moving away is bounced off the mallet with
    restitution PuckRestitution and given half the mallet's velocity. */
module Collisions {
  import opened Table
  import Pucks
  import Mallets

  /** The centre distance at which puck and mallet touch. */
  const MinDist: real := PuckRadius + MalletRadius

  /** Squared distance between the mallet's and the puck's centres. */
  function SqDist(m: Mallets.MalletState, p: Pucks.PuckState): real
  {
    SquaredLength(p.x - m.x, p.z - m.z)
  }

  /** dist is the centre distance that `math.sqrt` yields. It must be positive:
      the source divides by it, and two coincident centres would fail there. */
  predicate IsDistance(m: Mallets.MalletState, p: Pucks.PuckState, dist: real)
  {
    dist > 0.0 && dist * dist == SqDist(m, p)
  }

  /** The unit normal from the mallet's centre to the puck's. */
  function Normal(m: Mallets.MalletState, p: Pucks.PuckState, dist: real): (real, real)
    requires dist > 0.0
  {
    ((p.x - m.x) / dist, (p.z - m.z) / dist)
  }

  /** The puck's velocity relative to the mallet along the normal n; positive
      when the two are moving apart. */
  function NormalSpeed(m: Mallets.MalletState, p: Pucks.PuckState, n: (real, real)): real
  {
    (p.vx - m.vx) * n.0 + (p.vz - m.vz) * n.1
  }

  /** The puck moved by `overlap` along n. */
  function PushOut(p: Pucks.PuckState, n: (real, real), overlap: real): Pucks.PuckState
  {
    p.(x := p.x + n.0 * overlap, z := p.z + n.1 * overlap)
  }

  /** The bounce: the impulse -(1 + PuckRestitution) times the normal speed
      along n, then half of the mallet's velocity. */
  function Bounce(m: Mallets.MalletState, p: Pucks.PuckState, n: (real, real)): Pucks.PuckState
  {
    var j := -(1.0 + PuckRestitution) * NormalSpeed(m, p, n);
    p.(vx := p.vx + j * n.0 + m.vx * 0.5, vz := p.vz + j * n.1 + m.vz * 0.5)
  }

  /** The effect of Game.check_collision(m, p) on the puck. */
  function Collide(m: Mallets.MalletState, p: Pucks.PuckState, dist: real): (r: Pucks.PuckState)
    requires IsDistance(m, p, dist)
    ensures dist >= MinDist ==> r == p
    ensures dist < MinDist && NormalSpeed(m, p, Normal(m, p, dist)) > 0.0 ==> r.vx == p.vx && r.vz == p.vz
  {
    if dist < MinDist then
      var n := Normal(m, p, dist);
      var q := PushOut(p, n, MinDist - dist);
      if NormalSpeed(m, q, n) > 0.0 then q else Bounce(m, q, n)
    else p
  }

  /** The normal has length one. */
  lemma NormalIsUnit(m: Mallets.MalletState, p: Pucks.PuckState, dist: real)
    requires IsDistance(m, p, dist)
    ensures SquaredLength(Normal(m, p, dist).0, Normal(m, p, dist).1) == 1.0
  {
    var k := 1.0 / dist;
    DivideAsScale(p.x - m.x, dist);
    DivideAsScale(p.z - m.z, dist);
    ScaledSquaredLength(p.x - m.x, p.z - m.z, k);
    assert (dist * dist) * (k * k) == (dist * k) * (dist * k);
    assert dist * k == 1.0;
  }

  lemma DivideAsScale(a: real, d: real)
    requires d > 0.0
    ensures a / d == a * (1.0 / d)
  {
  }

  /** An overlapping puck is pushed straight out along the line of centres to
      exactly the touching distance: its offset from the mallet keeps its
      direction and is scaled to MinDist. */
  lemma CollidePushesOut(m: Mallets.MalletState, p: Pucks.PuckState, dist: real)
    requires IsDistance(m, p, dist) && dist < MinDist
    ensures var r := Collide(m, p, dist);
      && r.x - m.x == (p.x - m.x) * (MinDist / dist)
      && r.z - m.z == (p.z - m.z) * (MinDist / dist)
      && SqDist(m, r) == MinDist * MinDist
  {
    var r := Collide(m, p, dist);
    var k := MinDist / dist;
    ScaleAlong(p.x - m.x, dist, MinDist);
    ScaleAlong(p.z - m.z, dist, MinDist);
    assert r.x - m.x == (p.x - m.x) * k && r.z - m.z == (p.z - m.z) * k;
    ScaledSquaredLength(p.x - m.x, p.z - m.z, k);
    assert (dist * dist) * (k * k) == (dist * k) * (dist * k);
    assert dist * k == MinDist;
  }

  /** Moving an offset a along its own direction (a / d) by m - d scales it to m / d of itself. */
  lemma ScaleAlong(a: real, d: real, m: real)
    requires d > 0.0
    ensures a + (a / d) * (m - d) == a * (m / d)
  {
    assert (a / d) * d == a;
    assert (a / d) * (m - d) == (a / d) * m - a;
    assert (a / d) * m == a * (m / d);
  }

  lemma ScaledSquaredLength(a: real, b: real, k: real)
    ensures SquaredLength(a * k, b * k) == SquaredLength(a, b) * (k * k)
  {
  }

  /** Pushing the puck out does not change its velocity, and it keeps the normal. */
  lemma PushOutKeepsNormal(m: Mallets.MalletState, p: Pucks.PuckState, dist: real)
    requires IsDistance(m, p, dist) && dist < MinDist
    ensures var q := PushOut(p, Normal(m, p, dist), MinDist - dist);
      && q.vx == p.vx && q.vz == p.vz
      && NormalSpeed(m, q, Normal(m, p, dist)) == NormalSpeed(m, p, Normal(m, p, dist))
  {
  }

  /** A puck already moving away from the mallet keeps its velocity; one that
      is approaching (or sliding along it) leaves with its relative normal speed
      reversed and scaled by PuckRestitution, plus half the mallet's own normal
      speed. */
  lemma CollideRebounds(m: Mallets.MalletState, p: Pucks.PuckState, dist: real)
    requires IsDistance(m, p, dist) && dist < MinDist
    ensures var n, r := Normal(m, p, dist), Collide(m, p, dist);
      var before := NormalSpeed(m, p, n);
      && (before > 0.0 ==> r.vx == p.vx && r.vz == p.vz)
      && (before <= 0.0 ==> NormalSpeed(m, r, n) == -PuckRestitution * before + 0.5 * (m.vx * n.0 + m.vz * n.1))
      && (before <= 0.0 ==> (r.vx - p.vx) * n.1 - (r.vz - p.vz) * n.0 == 0.5 * (m.vx * n.1 - m.vz * n.0))
  {
    var n := Normal(m, p, dist);
    PushOutKeepsNormal(m, p, dist);
    if NormalSpeed(m, p, n) <= 0.0 {
      NormalIsUnit(m, p, dist);
      var q := PushOut(p, n, MinDist - dist);
      BounceAlongUnit(m, q, n);
    }
  }

  lemma BounceAlongUnit(m: Mallets.MalletState, q: Pucks.PuckState, n: (real, real))
    requires SquaredLength(n.0, n.1) == 1.0
    ensures NormalSpeed(m, Bounce(m, q, n), n) == -PuckRestitution * NormalSpeed(m, q, n) + 0.5 * (m.vx * n.0 + m.vz * n.1)
  {
    ImpulseAlongUnit(q.vx, q.vz, m.vx, m.vz, n.0, n.1);
  }

  /** The same in plain numbers: (pu, pw) is the puck's velocity, (mu, mw) the mallet's. */
  lemma ImpulseAlongUnit(pu: real, pw: real, mu: real, mw: real, n0: real, n1: real)
    requires SquaredLength(n0, n1) == 1.0
    ensures var v := (pu - mu) * n0 + (pw - mw) * n1;
      var j := -(1.0 + PuckRestitution) * v;
      ((pu + j * n0 + mu * 0.5) - mu) * n0 + ((pw + j * n1 + mw * 0.5) - mw) * n1
        == -PuckRestitution * v + 0.5 * (mu * n0 + mw * n1)
  {
    var v := (pu - mu) * n0 + (pw - mw) * n1;
    var j := -(1.0 + PuckRestitution) * v;
    assert ((pu + j * n0 + mu * 0.5) - mu) * n0 == (pu - mu) * n0 + j * (n0 * n0) + 0.5 * (mu * n0);
    assert ((pw + j * n1 + mw * 0.5) - mw) * n1 == (pw - mw) * n1 + j * (n1 * n1) + 0.5 * (mw * n1);
    assert j * (n0 * n0) + j * (n1 * n1) == j * SquaredLength(n0, n1) == j;
  }

  /** Against a mallet at rest an approaching puck always comes away: its normal
      speed afterwards is PuckRestitution times the speed it came in with. */
  lemma StillMalletSendsAway(m: Mallets.MalletState, p: Pucks.PuckState, dist: real)
    requires IsDistance(m, p, dist) && dist < MinDist
    requires m.vx == 0.0 && m.vz == 0.0
    requires NormalSpeed(m, p, Normal(m, p, dist)) < 0.0
    ensures var n := Normal(m, p, dist);
      NormalSpeed(m, Collide(m, p, dist), n) == -PuckRestitution * NormalSpeed(m, p, n) > 0.0
  {
    CollideRebounds(m, p, dist);
  }
}
