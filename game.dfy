/** The rules of a match (class Game in game.py): a tick moves both mallets
    and the puck, resolves the two mallet contacts and checks the ends of the
    table for a goal; a goal scores a point and either re-serves or, at
    WinScore, ends the match, after which nothing moves any more. */
module AirHockey {
  import opened Table
  import Pucks
  import Mallets
  import Collisions

  /** Everything the rules look at: the player's mallet p1 (bottom half), the
      AI's mallet p2 (top half), the puck, the two scores (index 0 is player 1)
      and the winner's index once there is one. */
  datatype GameState = GameState(
    p1: Mallets.MalletState,
    p2: Mallets.MalletState,
    puck: Pucks.PuckState,
    scores: seq<int>,
    winner: Option<nat>)

  /** What a tick takes from outside the rules: the frame time from the clock,
      the keys held down, the square root of 2, the centre distances
      `math.sqrt` returns in the two contact checks, and the random draws of a
      serve should one be needed. */
  datatype TickInput = TickInput(
    dt: real,
    keys: Mallets.Keys,
    root2: real,
    dist1: real,
    dist2: real,
    serve: Pucks.Serve)

  /** The rules' invariant: two scores, none above WinScore; no winner while
      both are below it, and a winner's score is exactly WinScore while the
      other's is below; the player's mallet keeps to the bottom half and the
      AI's to the top half. */
  predicate Valid(g: GameState)
  {
    && |g.scores| == 2
    && 0 <= g.scores[0] <= WinScore && 0 <= g.scores[1] <= WinScore
    && (g.winner.None? ==> g.scores[0] < WinScore && g.scores[1] < WinScore)
    && (g.winner.Some? ==>
          && g.winner.value < 2
          && g.scores[g.winner.value] == WinScore
          && g.scores[1 - g.winner.value] < WinScore)
    && g.p1.isPlayer && Mallets.BottomHalf(g.p1) && Mallets.InBounds(g.p1)
    && !g.p2.isPlayer && Mallets.TopHalf(g.p2) && Mallets.InBounds(g.p2)
  }

  /** Game.start_game: two fresh mallets six units either side of the centre
      line, a served puck, nil-nil and no winner. */
  function StartState(serve: Pucks.Serve): (r: GameState)
    requires Pucks.ValidServe(serve)
    ensures Valid(r)
    ensures r.scores == [0, 0] && r.winner == None
    ensures r.puck.x == 0.0 && r.puck.z == 0.0
    ensures r.p1.z < 0.0 < r.p2.z
  {
    GameState(Mallets.Initial(true, -6.0), Mallets.Initial(false, 6.0), Pucks.Served(serve), [0, 0], None)
  }

  /** The AI aims at the puck while the puck is in its half or on the centre
      line, and at a defensive spot (0, 5) in front of its goal otherwise; either
      way the aim lies in the AI's half. */
  function AiTarget(p: Pucks.PuckState): (r: (real, real))
    ensures r.1 >= 0.0
    ensures p.z >= 0.0 <==> r == (p.x, p.z)
    ensures p.z < 0.0 ==> r == (0.0, 5.0)
  {
    if p.z < 0.0 then (0.0, 5.0) else (p.x, p.z)
  }

  /** The two mallets after their updates; the AI's target is taken from the
      puck before the puck moves. */
  function MovedMallets(g: GameState, inp: TickInput): (Mallets.MalletState, Mallets.MalletState)
    requires inp.dt > 0.0 && Mallets.IsRootOfTwo(inp.root2)
  {
    (Mallets.Step(g.p1, inp.dt, inp.keys, inp.root2, None),
     Mallets.Step(g.p2, inp.dt, inp.keys, inp.root2, Some(AiTarget(g.puck))))
  }

  /** The puck after its own update, before any mallet contact. */
  function MovedPuck(g: GameState, inp: TickInput): Pucks.PuckState
  {
    Pucks.Step(g.puck, inp.dt).0
  }

  /** The inputs of a tick are well formed: a positive frame time, a true
      square root of 2, a serve within its ranges, and the two distances are
      the centre distances at the moments the contacts are checked. */
  predicate InputOk(g: GameState, inp: TickInput)
  {
    && inp.dt > 0.0 && Mallets.IsRootOfTwo(inp.root2) && Pucks.ValidServe(inp.serve)
    && var ms := MovedMallets(g, inp);
       var puck := MovedPuck(g, inp);
       && Collisions.IsDistance(ms.0, puck, inp.dist1)
       && Collisions.IsDistance(ms.1, Collisions.Collide(ms.0, puck, inp.dist1), inp.dist2)
  }

  /** The motion part of Game.update: mallets, puck, then the contacts with
      player 1's mallet and then the AI's. Scores and winner are untouched. */
  function Physics(g: GameState, inp: TickInput): (r: GameState)
    requires InputOk(g, inp)
    ensures r.scores == g.scores && r.winner == g.winner
    ensures (r.p1, r.p2) == MovedMallets(g, inp)
  {
    var ms := MovedMallets(g, inp);
    var puck := MovedPuck(g, inp);
    var puck1 := Collisions.Collide(ms.0, puck, inp.dist1);
    g.(p1 := ms.0, p2 := ms.1, puck := Collisions.Collide(ms.1, puck1, inp.dist2))
  }

  /** Game.goal(scorer): one more point for the scorer; at WinScore the scorer
      wins and the puck is left where it is, otherwise the puck is re-served. */
  function ScoreGoal(g: GameState, scorer: nat, serve: Pucks.Serve): (r: GameState)
    requires |g.scores| == 2 && scorer < 2 && Pucks.ValidServe(serve)
    ensures |r.scores| == 2
    ensures r.scores[scorer] == g.scores[scorer] + 1 && r.scores[1 - scorer] == g.scores[1 - scorer]
    ensures r.p1 == g.p1 && r.p2 == g.p2
    ensures r.winner == (if r.scores[scorer] >= WinScore then Some(scorer) else g.winner)
    ensures r.scores[scorer] < WinScore ==> r.puck == Pucks.Served(serve)
    ensures r.scores[scorer] < WinScore ==>
      r.puck.x == 0.0 && r.puck.z == 0.0 && 5.0 <= Abs(r.puck.vz) <= 8.0 && Abs(r.puck.vx) <= 4.0
    ensures r.scores[scorer] >= WinScore ==> r.puck == g.puck
  {
    var scores := g.scores[scorer := g.scores[scorer] + 1];
    if scores[scorer] >= WinScore then g.(scores := scores, winner := Some(scorer))
    else g.(scores := scores, puck := Pucks.Served(serve))
  }

  /** The goal checks at the end of a tick: past the top end player 1 scores,
      past the bottom end player 2 does. */
  function GoalCheck(g: GameState, serve: Pucks.Serve): (r: GameState)
    requires |g.scores| == 2 && Pucks.ValidServe(serve)
    ensures Abs(g.puck.z) <= TableHalfLength ==> r == g
  {
    if g.puck.z > TableHalfLength then ScoreGoal(g, 0, serve)
    else if g.puck.z < -TableHalfLength then ScoreGoal(g, 1, serve)
    else g
  }

  /** The rule part of Game.update. Once there is a winner a tick changes
      nothing, and a tick adds at most one point in total. */
  function Tick(g: GameState, inp: TickInput): (r: GameState)
    requires |g.scores| == 2
    requires g.winner.None? ==> InputOk(g, inp)
    ensures |r.scores| == 2
    ensures g.winner.Some? ==> r == g
    ensures g.scores[0] <= r.scores[0] && g.scores[1] <= r.scores[1]
    ensures r.scores[0] + r.scores[1] <= g.scores[0] + g.scores[1] + 1
  {
    if g.winner.Some? then g else GoalCheck(Physics(g, inp), inp.serve)
  }

  /** Who scores in a tick is decided by where the puck ends up after the
      contacts: player 1 exactly when it is past the top end, player 2 exactly
      when it is past the bottom end. */
  lemma TickScorer(g: GameState, inp: TickInput)
    requires |g.scores| == 2 && g.winner.None? && InputOk(g, inp)
    ensures var z, r := Physics(g, inp).puck.z, Tick(g, inp);
      && r.scores[0] == g.scores[0] + (if z > TableHalfLength then 1 else 0)
      && r.scores[1] == g.scores[1] + (if z < -TableHalfLength then 1 else 0)
  {
  }

  /** A goal keeps the invariant, and the match ends exactly when the scorer
      reaches WinScore. */
  lemma ScoreGoalKeepsValid(g: GameState, scorer: nat, serve: Pucks.Serve)
    requires Valid(g) && g.winner.None? && scorer < 2 && Pucks.ValidServe(serve)
    ensures Valid(ScoreGoal(g, scorer, serve))
    ensures ScoreGoal(g, scorer, serve).winner.Some? <==> g.scores[scorer] + 1 == WinScore
  {
  }

  /** The mallet moves keep each mallet in its own half. */
  lemma PhysicsKeepsValid(g: GameState, inp: TickInput)
    requires Valid(g) && InputOk(g, inp)
    ensures Valid(Physics(g, inp))
  {
    Mallets.StepStaysInHalf(g.p1, inp.dt, inp.keys, inp.root2, None);
    Mallets.StepStaysInHalf(g.p2, inp.dt, inp.keys, inp.root2, Some(AiTarget(g.puck)));
  }

  /** Every tick keeps the invariant: in particular no score ever passes
      WinScore and the mallets never leave their halves. */
  lemma TickKeepsValid(g: GameState, inp: TickInput)
    requires Valid(g) && (g.winner.None? ==> InputOk(g, inp))
    ensures Valid(Tick(g, inp))
  {
    if g.winner.None? {
      var q := Physics(g, inp);
      PhysicsKeepsValid(g, inp);
      if q.puck.z > TableHalfLength {
        ScoreGoalKeepsValid(q, 0, inp.serve);
      } else if q.puck.z < -TableHalfLength {
        ScoreGoalKeepsValid(q, 1, inp.serve);
      }
    }
  }

  /** A sequence of ticks has well-formed inputs wherever the match is still on. */
  predicate RunOk(g: GameState, ins: seq<TickInput>)
    requires |g.scores| == 2
    decreases |ins|
  {
    |ins| == 0 || ((g.winner.None? ==> InputOk(g, ins[0])) && RunOk(Tick(g, ins[0]), ins[1..]))
  }

  /** The state after a sequence of ticks. */
  function Run(g: GameState, ins: seq<TickInput>): (r: GameState)
    requires |g.scores| == 2 && RunOk(g, ins)
    ensures |r.scores| == 2
    decreases |ins|
  {
    if |ins| == 0 then g else Run(Tick(g, ins[0]), ins[1..])
  }

  /** Any number of ticks keeps the invariant. */
  lemma {:induction false} RunKeepsValid(g: GameState, ins: seq<TickInput>)
    requires Valid(g) && RunOk(g, ins)
    ensures Valid(Run(g, ins))
    decreases |ins|
  {
    if |ins| > 0 {
      TickKeepsValid(g, ins[0]);
      RunKeepsValid(Tick(g, ins[0]), ins[1..]);
    }
  }

  /** Once a match is won, no further tick changes anything. */
  lemma {:induction false} RunFrozenAfterWin(g: GameState, ins: seq<TickInput>)
    requires |g.scores| == 2 && g.winner.Some? && RunOk(g, ins)
    ensures Run(g, ins) == g
    decreases |ins|
  {
    if |ins| > 0 {
      RunFrozenAfterWin(Tick(g, ins[0]), ins[1..]);
    }
  }

  /** Scores never go down, and n ticks add at most n points. */
  lemma {:induction false} RunScoresGrowSlowly(g: GameState, ins: seq<TickInput>)
    requires |g.scores| == 2 && RunOk(g, ins)
    ensures var r := Run(g, ins);
      && g.scores[0] <= r.scores[0] && g.scores[1] <= r.scores[1]
      && r.scores[0] + r.scores[1] <= g.scores[0] + g.scores[1] + |ins|
    decreases |ins|
  {
    if |ins| > 0 {
      RunScoresGrowSlowly(Tick(g, ins[0]), ins[1..]);
    }
  }

  /** Whatever is played from the start of a match: neither score exceeds
      WinScore, a winner has exactly WinScore, and player 1's mallet stays
      below the centre line and the AI's above it. */
  lemma PlayedMatch(serve: Pucks.Serve, ins: seq<TickInput>)
    requires Pucks.ValidServe(serve) && RunOk(StartState(serve), ins)
    ensures var r := Run(StartState(serve), ins);
      && 0 <= r.scores[0] <= WinScore && 0 <= r.scores[1] <= WinScore
      && (r.winner.Some? ==> r.winner.value < 2 && r.scores[r.winner.value] == WinScore)
      && r.p1.z < 0.0 < r.p2.z
  {
    RunKeepsValid(StartState(serve), ins);
  }

  /** Game in game.py, reduced to the state the rules use. */
  class Game {
    var p1: Mallets.Mallet
    var p2: Mallets.Mallet
    var puck: Pucks.Puck
    var scores: seq<int>
    var winner: Option<nat>

    /** The two mallets are distinct objects. */
    predicate Distinct()
      reads this
    {
      p1 != p2
    }

    function State(): GameState
      reads this, p1, p2, puck
    {
      GameState(p1.State(), p2.State(), puck.State(), scores, winner)
    }

    /** Game(): the constructor ends with start_game. */
    constructor (serve: Pucks.Serve)
      requires Pucks.ValidServe(serve)
      ensures Distinct() && State() == StartState(serve)
    {
      p1 := new Mallets.Mallet(true, -6.0);
      p2 := new Mallets.Mallet(false, 6.0);
      puck := new Pucks.Puck(serve);
      scores := [0, 0];
      winner := None;
    }

    /** Game.start_game: a new match with new mallets and a new puck. */
    method StartGame(serve: Pucks.Serve)
      requires Pucks.ValidServe(serve)
      modifies this
      ensures fresh(p1) && fresh(p2) && fresh(puck)
      ensures Distinct() && State() == StartState(serve)
    {
      p1 := new Mallets.Mallet(true, -6.0);
      p2 := new Mallets.Mallet(false, 6.0);
      puck := new Pucks.Puck(serve);
      scores := [0, 0];
      winner := None;
    }

    /** Game.check_collision(m, p): pushes an overlapping puck out and bounces it. */
    method CheckCollision(m: Mallets.Mallet, p: Pucks.Puck, dist: real)
      requires Collisions.IsDistance(m.State(), p.State(), dist)
      modifies p
      ensures p.State() == Collisions.Collide(m.State(), old(p.State()), dist)
    {
      var minDist := PuckRadius + MalletRadius;
      if dist < minDist {
        var overlap := minDist - dist;
        var n := Collisions.Normal(m.State(), p.State(), dist);
        var pushed := Collisions.PushOut(p.State(), n, overlap);
        p.x := pushed.x;
        p.z := pushed.z;

        var velAlongNormal := Collisions.NormalSpeed(m.State(), p.State(), n);
        if velAlongNormal > 0.0 {
          return;
        }

        var bounced := Collisions.Bounce(m.State(), p.State(), n);
        p.vx := bounced.vx;
        p.vz := bounced.vz;
      }
    }

    /** Game.goal(scorer_idx). */
    method Goal(scorer: nat, serve: Pucks.Serve)
      requires |scores| == 2 && scorer < 2 && Pucks.ValidServe(serve)
      modifies this, puck
      ensures p1 == old(p1) && p2 == old(p2) && puck == old(puck)
      ensures State() == ScoreGoal(old(State()), scorer, serve)
    {
      scores := scores[scorer := scores[scorer] + 1];
      if scores[scorer] >= WinScore {
        winner := Some(scorer);
      } else {
        puck.Reset(serve);
      }
    }

    /** Game.update without the particles, the sound and the frame clock. */
    method Update(inp: TickInput)
      requires Distinct() && |scores| == 2
      requires winner.None? ==> InputOk(State(), inp)
      modifies this, p1, p2, puck
      ensures p1 == old(p1) && p2 == old(p2) && puck == old(puck)
      ensures State() == Tick(old(State()), inp)
    {
      if winner.Some? {
        return;
      }
      ghost var g := State();

      var target := (puck.x, puck.z);
      if puck.z < 0.0 {
        target := (0.0, 5.0);
      }

      p1.Update(inp.dt, inp.keys, inp.root2, None);
      p2.Update(inp.dt, inp.keys, inp.root2, Some(target));
      assert (p1.State(), p2.State()) == MovedMallets(g, inp);

      var hitWall := puck.Update(inp.dt);
      assert puck.State() == MovedPuck(g, inp);

      CheckCollision(p1, puck, inp.dist1);
      CheckCollision(p2, puck, inp.dist2);
      assert State() == Physics(g, inp);

      if puck.z > TableHalfLength {
        Goal(0, inp.serve);
      } else if puck.z < -TableHalfLength {
        Goal(1, inp.serve);
      }
    }
  }
}
