# Air hockey rules and kinematics

This project models the rules-and-kinematics layer of a 3D air-hockey game in
`game.py`, and proves properties of that model. A human player's mallet (player 1,
bottom half, keyboard) plays an AI mallet (player 2, top half) on a table
centred on the origin. The table is 12 units wide and 20 units long, and each
end wall has a goal mouth 2.5 units wide. The first player to 7 goals wins.

Python floats are modelled as exact reals. Each entity the game updates in
place is a class with the same fields and methods:

- `Pucks.Puck` is `Puck`. Its serve is `reset`, and its per-tick motion with
  friction and wall bounces is `update`.
- `Mallets.Mallet` is `Mallet`. It is clamped to its owner's half, the player's
  mallet follows the keys and the AI's chases a target, and its velocity comes
  from the distance it moved.
- `AirHockey.Game` is `Game`, with `start_game`, `check_collision`, `update`
  and `goal`.

Each method is proved equal to a function on plain values:

| method | function |
|---|---|
| `Puck.Update` | `Pucks.Step` |
| `Mallet.Update` | `Mallets.Step` |
| `Game.CheckCollision` | `Collisions.Collide` |
| `Game.Goal` | `AirHockey.ScoreGoal` |
| `Game.Update` | `AirHockey.Tick` |

The properties are lemmas about those functions. They cover:

- the bounds and the wall bounces;
- the mallets never crossing the centre line;
- the push-out and rebound at a mallet contact;
- at most one goal per tick;
- the freeze after a win;
- the match invariant that no score ever exceeds 7. It is proved to hold over
  any sequence of ticks from `start_game` (`AirHockey.PlayedMatch`).

The values the game takes from outside become inputs of a tick
(`AirHockey.TickInput`):

- The frame time `dt` comes from the clock. It must be positive, because
  `Mallet.update` divides by it.
- The keys held down are given as `Mallets.Keys`.
- The square root of 2 from the keyboard normalisation is given as `root2`,
  with `root2 * root2 == 2`.
- The two centre distances from `math.sqrt` in `check_collision` are given as
  `dist1` and `dist2`. Each is positive and its square is the squared centre
  distance.
- The random draws of a serve are given as `Pucks.Serve`, within the ranges
  `random.uniform` draws from.

The code is followed where comments in it say otherwise:

- The AI's defensive spot is (0, 5), not (0, 6).
- The AI targets the puck when `z >= 0`, not `z > 0`.

A side-wall hit returns before the end-wall test. So a puck driven into a
corner can end the tick past the end line outside the goal mouth, and then it
scores. This is modelled as written, and `Pucks.CornerEscape` exhibits it.

## Model

| member | source | states |
|---|---|---|
| Table.Clamp | game.py:230-233 | `max(lo, min(hi, v))` lies in [lo, hi] when lo <= hi, is v inside the interval, and is the nearer bound outside it |
| Table.ClampCloser | game.py:230-233 | clamping never moves a value farther from a point inside the interval |
| Pucks.Served | game.py:102-114 | a serve puts the puck on the centre spot with 5 <= abs(vz) <= 8, abs(vx) <= 4, heading to the top end exactly when the coin says so |
| Pucks.Puck.Reset | game.py:102-114 | the puck's fields afterwards are the served state |
| Pucks.Puck.constructor | game.py:99-100 | a new puck is served |
| Pucks.Drift | game.py:116-123 | the puck moves by velocity times dt, and then both velocity components are multiplied by the friction factor |
| Pucks.Walls | game.py:125-151 | after the wall tests abs(x) <= TABLE_W - PUCK_RADIUS; no speed component grows; a wall is reported exactly when the position was corrected |
| Pucks.Step | game.py:116-151 | a tick ends with abs(x) within the side walls and no faster in either component; it reports a wall exactly when the puck is not where its velocity took it |
| Pucks.StepMovesThenSlows | game.py:116-151 | with no wall in the way a tick is a move at the old velocity followed by friction, and returns None |
| Pucks.StepSideWall | game.py:126-134 | a side-wall hit sets x to the nearer limit, sets vx to -RESTITUTION_WALL times the slowed vx, returns 'wall', and leaves z unclamped that tick |
| Pucks.StepEndWall | game.py:136-149 | outside the goal mouth z ends within the end walls; a wall is reported exactly when the puck went past, and then z is set to the nearer end limit and vz is reflected and damped |
| Pucks.StepGoalMouth | game.py:141-151 | inside the goal mouth z is never clamped and None is returned |
| Pucks.CornerEscape | game.py:126-149 | a side-wall hit in a corner leaves the puck past the end line outside the goal mouth |
| Pucks.Puck.Update | game.py:116-151 | the new fields and the 'wall' flag are those of Pucks.Step on the old fields |
| Mallets.HalfBounds | game.py:186-190 | a top mallet's z range is [0.5, TABLE_L - MALLET_RADIUS], a bottom one's is [-TABLE_L + MALLET_RADIUS, -0.5], and neither contains the centre line |
| Mallets.Mallet.constructor | game.py:172-190 | a new mallet is at rest at (0, z_start) with the bounds of its half |
| Mallets.Magnitude | game.py:205-209 | the keyboard magnitude is positive and its square is dx*dx + dz*dz |
| Mallets.DirectionIsUnit | game.py:198-212 | the normalised key direction has length 1 when a key is held and is zero otherwise, with the signs of the keys |
| Mallets.Moved | game.py:230-233 | the clamped position lies within the table across and within the mallet's half along |
| Mallets.Step | game.py:192-237 | after an update x is within ±(TABLE_W - MALLET_RADIUS), z within [min_z, max_z], and last_x, last_z hold the entry position |
| Mallets.StepVelocity | game.py:235-237 | the stored velocity times dt is the clamped new position minus the entry position |
| Mallets.StepStaysInHalf | game.py:187-190 | a top mallet stays a top mallet strictly above the centre line, and a bottom one stays strictly below it |
| Mallets.ChaseGap | game.py:220-225 | for every dt, one AI move by (target - pos) * 8 * dt scales the gap by abs(1 - 8*dt): it overshoots for dt > 1/8, and the gap grows for dt > 1/4 |
| Mallets.ChaseShrinks | game.py:220-225 | for 8*dt <= 1 one AI move leaves exactly the fraction 1 - 8*dt of the gap |
| Mallets.AiClosesGap | game.py:214-233 | for a reachable target and 8*dt <= 1, the clamped AI move shrinks the gap on each axis by at least that factor |
| Mallets.Mallet.Update | game.py:192-237 | the new fields are those of Mallets.Step on the old fields |
| Collisions.Collide | game.py:323-361 | nothing changes unless dist < PUCK_RADIUS + MALLET_RADIUS; a puck already moving apart keeps its velocity |
| Collisions.NormalIsUnit | game.py:335-341 | the contact normal (dx/dist, dz/dist) has length 1 |
| Collisions.CollidePushesOut | game.py:331-345 | an overlapping puck is pushed along the line of centres to exactly the touching distance |
| Collisions.PushOutKeepsNormal | game.py:340-350 | the push-out leaves the velocity and the normal speed as they were |
| Collisions.CollideRebounds | game.py:347-361 | relative normal speed > 0 keeps the velocity; otherwise the new normal speed is -RESTITUTION_PUCK times the old one plus half the mallet's normal speed, and the tangential change is exactly half the mallet's tangential velocity |
| Collisions.BounceAlongUnit | game.py:352-361 | the impulse -(1 + RESTITUTION_PUCK) v_n along a unit normal, plus half the mallet's velocity, gives that normal speed |
| Collisions.StillMalletSendsAway | game.py:347-361 | against a mallet at rest an approaching puck leaves at RESTITUTION_PUCK times its approach speed |
| AirHockey.Game.CheckCollision | game.py:323-361 | the puck's new fields are those of Collisions.Collide on its old fields |
| AirHockey.StartState | game.py:315-321 | a new match is 0-0 with no winner, the puck on the centre spot, and the mallets in their halves; the invariant holds |
| AirHockey.Game.StartGame | game.py:315-321 | the game's fields afterwards are the start state, with new mallets and a new puck |
| AirHockey.Game.constructor | game.py:269-285 | a new game is in the start state |
| AirHockey.AiTarget | game.py:378-381 | the AI aims at the puck exactly when puck.z >= 0, otherwise at (0, 5), and always at a point with z >= 0 |
| AirHockey.Physics | game.py:380-391 | the motion part of a tick moves both mallets as their updates say and leaves scores and winner alone |
| AirHockey.ScoreGoal | game.py:403-411 | a goal adds one to the scorer's count only; the scorer wins exactly when the count reaches WIN_SCORE, otherwise the puck is re-served from the centre with 5 <= abs(vz) <= 8 and abs(vx) <= 4 |
| AirHockey.ScoreGoalKeepsValid | game.py:403-411 | from a valid state a goal keeps the invariant, and the match ends exactly when the scorer's new count is WIN_SCORE |
| AirHockey.Game.Goal | game.py:403-411 | the game's fields afterwards are those of AirHockey.ScoreGoal |
| AirHockey.GoalCheck | game.py:393-397 | a puck within the end lines scores nothing |
| AirHockey.Tick | game.py:373-397 | with a winner a tick changes nothing; otherwise no score goes down and at most one point is added |
| AirHockey.TickScorer | game.py:393-397 | player 1 scores exactly when the puck ends past the top end, and player 2 exactly when it ends past the bottom end |
| AirHockey.PhysicsKeepsValid | game.py:383-384 | the mallet updates keep each mallet in bounds in its own half |
| AirHockey.TickKeepsValid | game.py:373-411 | every tick keeps the invariant: scores within 0..WIN_SCORE, and a winner exactly when one score is WIN_SCORE |
| AirHockey.Game.Update | game.py:373-397 | the game's fields afterwards are those of AirHockey.Tick on the old fields |
| AirHockey.Run | game.py:373-397 | a sequence of ticks keeps two scores |
| AirHockey.RunKeepsValid | game.py:373-411 | any number of ticks keeps the invariant |
| AirHockey.RunFrozenAfterWin | game.py:376 | once there is a winner no sequence of ticks changes anything |
| AirHockey.RunScoresGrowSlowly | game.py:393-397 | scores never go down, and n ticks add at most n points |
| AirHockey.PlayedMatch | game.py:315-321 | from start_game, no score ever exceeds WIN_SCORE, a winner has exactly WIN_SCORE, and the mallets stay on their sides of the centre line |

## Left out

- Drawing and windowing are not modelled: OpenGL, GLU and GLUT calls, `draw*`, `box`, `render`, `draw_ui`, `init_gl`, `resize`, the `run` event loop, and the font. This is rendering and I/O.
- `Particle`, `spawn_particles` and the particle list that `start_game` empties and `update` ages are not modelled. They are random visual effects that the rules never read.
- Sound playback is not modelled. `sound_gen.py` is not part of this model either: it is audio synthesis.
- The y coordinate and the colours are not modelled; only the drawing uses them.
- The winner's message text is not modelled. The model keeps the winning player's index, which carries the same information.
- `pygame.key.get_pressed()` is not modelled. The keys held down are an input of the tick.
- `clock.tick` is not modelled. The frame time `dt` is an input, and it is required to be positive. The source divides by `dt` in `Mallet.update` and does not guard against a zero frame time.
- `math.sqrt` is not modelled. Its results are inputs: `root2` for the keyboard and the two contact distances.
- Collisions.Collide requires a positive distance. The source would raise ZeroDivisionError if the two centres coincided.
- `random` in `Puck.reset` is not modelled. The draws are an input, constrained to the ranges they are drawn from.
- Floating-point rounding is not modelled. Python floats are exact reals.
- Mallets.DirectionIsUnit: no lemma bounds the player mallet's speed by `self.speed` after clamping. Only the unit length of the key direction is proved.
- AirHockey.Game.CheckCollision computes the normal, the push-out and the impulse through the functions of `Collisions`. It updates the puck's fields in the source's order, but not through the source's intermediate variables one by one.
- Mallets.AiClosesGap: the shrinking gap is promised only for 8*dt <= 1. The frame time is not capped in the source, and for longer frames the AI overshoots its target (Mallets.ChaseGap states the general case).
- `cone.py`, `Trap.py`, `cg1.py` and `main.py` are not part of this model. They are separate GLUT demo programs.
