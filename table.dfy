/** Dimensions, physical constants and rules of the air-hockey table.
    The table is centred on the origin: x runs across it, z along it, and the
    two goals sit at the ends z = -TableHalfLength (bottom player) and
    z = +TableHalfLength (top player). Python floats are modelled as exact reals. */
module Table {

  /** Python's `None` or a value. */
  datatype Option<T> = None | Some(value: T)

  const TableHalfWidth: real := 6.0     // TABLE_W: the side walls stand at x = ±6
  const TableHalfLength: real := 10.0   // TABLE_L: the end walls stand at z = ±10
  const GoalWidth: real := 2.5          // GOAL_W: width of the opening in each end wall

  const Friction: real := 0.99          // FRICTION: velocity kept per tick
  const WallRestitution: real := 0.8    // RESTITUTION_WALL
  const PuckRestitution: real := 0.9    // RESTITUTION_PUCK

  const PuckRadius: real := 0.4         // PUCK_RADIUS
  const MalletRadius: real := 0.6       // MALLET_RADIUS

  const WinScore: int := 7              // WIN_SCORE: first to seven goals wins

  const MalletSpeed: real := 20.0       // Mallet.speed: keyboard speed in units per second
  const AiGain: real := 8.0             // fraction of the gap the AI mallet closes per second

  function Abs(v: real): real
  {
    if v < 0.0 then -v else v
  }

  /** The squared length of the vector (a, b). */
  function SquaredLength(a: real, b: real): real
  {
    a * a + b * b
  }

  /** Python's `max(lo, min(hi, v))`: the value pulled into [lo, hi]. */
  function Clamp(lo: real, hi: real, v: real): (r: real)
    ensures lo <= r
    ensures lo <= hi ==> r <= hi
    ensures lo <= v <= hi ==> r == v
    ensures v < lo ==> r == lo
    ensures lo <= hi < v ==> r == hi
  {
    var m := if hi < v then hi else v;
    if m < lo then lo else m
  }

  /** Clamping into an interval never moves a value farther from a point of that interval. */
  lemma ClampCloser(lo: real, hi: real, v: real, t: real)
    requires lo <= t <= hi
    ensures Abs(Clamp(lo, hi, v) - t) <= Abs(v - t)
  {
  }
}
