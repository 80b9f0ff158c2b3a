# mi-juego: a verified model of the game logic

`main.js` is a small browser game. A character (`Personaje`) moves left and right and jumps.
Twenty floating coins (`Moneda`) bob up and down. A `Game` object keeps the score, a 60-second
countdown and an end-of-game flag. Three periodic callbacks drive the game: a collision poll
every 100 ms, coin motion every 50 ms and the countdown every second. The jump runs as two
more 20 ms intervals, an ascent and then a fall. This project models that logic in Dafny without
the browser. Each interval callback body becomes one step method.

- `boxes.dfy`, module `Boxes`: the box-overlap test `colisionaCon`. It uses strict
  inequalities, so boxes that only touch do not collide. It is proved symmetric and, for boxes
  of positive size, equal to "some point lies strictly inside both boxes".
- `character.dfy`, module `Character`: class `Personaje` with fields `x`, `y`, `saltando` and
  an explicit jump `Phase` (`Idle`, `Ascending(alturaMaxima)`, `Falling`). Its methods are
  `Mover` (key presses), `Saltar`, `Caer`, the two interval bodies `AscentTick` and `FallTick`,
  and `Jump`, which runs a whole jump as a loop of those steps. They are specified by the pure
  functions `Move`, `TakeOff`, `Tick` and `Ticks` on a `Pose` value. A jump from the ground
  takes 23 ascent steps of 20 down to the apex y = 20, one hand-over tick, 46 fall steps of 10
  back to exactly 480, and one tick that clears `saltando`: 71 ticks in all.
- `coins.dfy`, module `Coins`: class `Moneda` and its `mover` step, specified as
  `Step = Clamp ∘ Drift` on a `CoinState` value with exact `real` arithmetic. The proved
  invariant `Orbit` says the coin stays in the arena [30, 570]. It may overshoot its band
  [yOriginal − rangoMovimiento, yOriginal + rangoMovimiento] by at most one step, and outside
  the band it is always heading back.
- `match.dfy`, module `Match`: class `Game` with `monedas` (a sequence of distinct `Moneda`
  objects), `puntuacion`, `tiempoRestante` and `juegoTerminado`. It has the three tick bodies
  plus `actualizarPuntuacion`, `ganarJuego` and `terminarJuego`. The poll calls `splice`
  inside `forEach`. `Sweep` models exactly what that does to the array: after a removal, the
  next coin slides into the removed index and the walk moves past it. `Survivors` is an
  independent reference reading of the same pass, and the two are proved equal.

Behaviour of the code that a reader might not expect:

- There is no double-jump guard. "ArrowUp" during a jump starts a new ascent from the current
  height.
- A coin can leave its band by up to one step before it turns back (`Coins.BandOvershoot`).
  The band is not an invariant.
- Winning does not stop the collision pass that is running. The end flag is read once before
  the `forEach`, so later touching coins in the same pass are still collected and the score can
  pass 100 (`Match.Game.CollectPastWin`).
- The countdown ends the game on the tick that finds 0, not on the tick that reaches 0. From
  60 seconds, the 61st tick ends the game (`Match.CountdownEnds`).
- The game has one ground line (480) and two endings: a win, and time running out.
- Key presses are not guarded by `juegoTerminado`: the character can still move after the
  game has ended.

## Model

| member | source | states |
|---|---|---|
| Boxes.CollidesSymmetric | main.js:155-161 | swapping the two boxes never changes the outcome of the overlap test |
| Boxes.EdgeContactIsNoCollision | main.js:155-161 | boxes that only share an edge, or lie further apart on some axis, do not collide (in either order) |
| Boxes.CollidesIffCommonInteriorPoint | main.js:155-161 | for boxes with positive sizes, the four strict inequalities hold exactly when some point lies strictly inside both boxes |
| Character.MoveKeys | main.js:113-122 | "ArrowRight" adds exactly 10 to x and "ArrowLeft" subtracts exactly 10, with no clamp, so x can go negative; "ArrowUp" starts a jump aimed 450 above; any other key changes nothing; no key changes y |
| Character.MoveLeftUndoesRight | main.js:113-118 | a left press undoes a right press and a right press undoes a left press |
| Character.StepsKeepReachable | main.js:113-150 | key presses and jump ticks keep y at or above the ground on the 10-pixel grid, keep `saltando` true exactly while a jump interval runs, and keep a resting character on the ground |
| Character.Climb | main.js:130-133 | while y is above `alturaMaxima`, k ascent ticks lower y by exactly 20k and change nothing else |
| Character.Descend | main.js:141-144 | while y is above the ground, k fall ticks raise y by exactly 10k and change nothing else |
| Character.JumpFromGround | main.js:126-150 | from rest at y = 480: after k ≤ 23 ticks y = 480 − 20k (ascending towards 30); tick 24 starts the fall at the apex 20; after k ticks with 24 ≤ k ≤ 70, y = 20 + 10(k − 24); tick 71 lands at exactly 480 with `saltando` false; x never changes |
| Character.JumpShape | main.js:126-150 | in that jump y strictly decreases on every ascent step and strictly increases on every fall step, never goes above the apex 20, and `saltando` stays true until tick 71 |
| Character.Personaje.constructor | main.js:101-107 | the character starts at (50, 480), not jumping, at rest |
| Character.Personaje.Mover | main.js:113-122 | a key press has exactly the effect `Move` gives and keeps the character invariant |
| Character.Personaje.Saltar | main.js:126-128 | sets `saltando` and starts the ascent with target y − 450, without moving the character, and keeps the character invariant |
| Character.Personaje.Caer | main.js:140-141 | called from the running ascent, switches to the fall phase, changes nothing else and keeps the character invariant |
| Character.Personaje.AscentTick | main.js:130-138 | one ascent callback: y strictly decreases by 20, or y is unchanged and the fall begins; the character invariant is kept |
| Character.Personaje.FallTick | main.js:141-149 | one fall callback: y strictly increases by 10, or y is unchanged, the jump ends and `saltando` becomes false; the character invariant is kept |
| Character.Personaje.Jump | main.js:126-150 | a whole jump from rest is 71 interval ticks and returns the character to exactly where it started |
| Coins.Drift | main.js:186-191 | y moves by the velocity; for a non-zero velocity, its sign flips exactly when the new y is strictly outside [yOriginal − rangoMovimiento, yOriginal + rangoMovimiento]; the speed and the other fields are unchanged |
| Coins.Clamp | main.js:194-201 | y ends in [30, 570]; a y less than 30 is clamped to 30 with the velocity made ≥ 0, a y greater than 570 is clamped to 570 with the velocity made ≤ 0; a y in range is left alone; the speed is unchanged |
| Coins.Step | main.js:184-201 | after one `mover`, 30 ≤ y ≤ 570, x and the band are unchanged, \|velocidadY\| is unchanged, and a clamp to 30 (570) leaves the velocity ≥ 0 (≤ 0) |
| Coins.SpawnInOrbit | main.js:166-179 | a coin created with values from the constructor's random ranges satisfies the motion invariant |
| Coins.StepKeepsOrbit | main.js:184-201 | every `mover` step keeps the coin in the arena, within one step of its band, and heading back whenever it is outside the band |
| Coins.BandOvershoot | main.js:186-191 | a coin one pixel inside its band moving outwards at speed 3 ends the step two pixels outside it, so the band alone is not invariant |
| Coins.Moneda.constructor | main.js:166-182 | a new coin holds the given position, velocity and band, with `yOriginal` set to its starting y |
| Coins.Moneda.Mover | main.js:184-201 | one `mover` call has exactly the effect of `Step` and keeps the coin invariant |
| Match.SurvivorsDropOnlyTouching | main.js:38-45 | the reference pass never grows the array, only drops elements that touch the character, and keeps every one that does not |
| Match.SweepIsSurvivors | main.js:38-45 | the splice-in-forEach pass equals the reference pass: a touching coin that the walk reaches is removed, and the coin after it is not examined |
| Match.SlidCoinSkipped | main.js:38-45 | the coin that slides into a collected coin's index survives that pass whether it touches the character or not |
| Match.IsolatedHitsAllCollected | main.js:38-45 | when no two touching coins are neighbours, one pass leaves no touching coin |
| Match.BothEndsCollected | main.js:37-45 | in [a, x, b] with a and b touching the character and x not, one pass collects both a and b and leaves only x |
| Match.Game.CollectPastWin | main.js:36-57 | at 90 points with coins [a, x, b], a and b touching the character and x not, one poll collects a (which wins the game) and still collects b: the tick ends with only x left, 110 points and the game over |
| Match.CountdownTick | main.js:80-88 | a finished game's tick changes nothing; a running tick takes exactly 1 off a positive clock and otherwise ends the game; the clock never goes below 0 |
| Match.CountdownRuns | main.js:80-83 | from t seconds, each of the first t ticks takes exactly one second off and the game keeps running |
| Match.FinishedTimerStays | main.js:81-87 | once the game is over, any number of countdown ticks change nothing |
| Match.CountdownEnds | main.js:80-88 | from t seconds the clock reads 0 after t ticks with the game still running; tick t + 1 ends the game and it stays over at 0 (from 60, the 61st tick) |
| Match.Game.constructor | main.js:2-25 | a new match has the character at its start, the 20 coins as drawn (distinct and fresh), score 0, 60 seconds and the game running |
| Match.Game.ActualizarPuntuacion | main.js:50-58 | adds the points, and the game is over afterwards exactly when it was over before or the score is now at least 100 |
| Match.Game.GanarJuego | main.js:72-76 | ends the game and changes no other field |
| Match.Game.TerminarJuego | main.js:92-95 | ends the game and changes no other field |
| Match.Game.CheckColisionesTick | main.js:36-48 | on a finished game nothing changes; otherwise the coins become the splice-in-forEach pass over the touching coins, the score grows by exactly 10 per removed coin, no coin is added and no coin clear of the character is removed, and the game is over exactly when the score is at least 100; the score never decreases and a finished game stays finished |
| Match.Game.MoverMonedasTick | main.js:62-68 | on a finished game no coin changes; otherwise every coin makes exactly one `Step` and stays in orbit |
| Match.Game.TemporizadorTick | main.js:80-88 | the clock and the end flag change exactly as `CountdownTick` says, the clock stays in [0, 60], a finished game changes nothing, and the coins and score are untouched |

## Left out

- Rendering and I/O: element creation, `appendChild`/`removeChild`, the `style.left`/`style.top`
  updates of both `actualizarPosicion` methods, `textContent` updates, and `alert`. None of
  them affects the game state.
- Scheduling: `setInterval`/`clearInterval`, and how the 20, 50, 100 and 1000 ms callbacks
  interleave. Each callback body is one method that any interleaving may call. Cancelling the
  countdown in `ganarJuego` and in the countdown itself is not modelled. A cancelled countdown
  callback would find `juegoTerminado` set and change nothing anyway.
- Character.Personaje.Saltar: pressing "ArrowUp" again mid-jump starts a second ascent interval
  in the code while the first keeps running. The model has one phase, so the new ascent
  replaces the running interval instead of overlapping it.
- Character.Personaje.Jump: runs a jump only from rest, since overlapping intervals are not
  modelled.
- `Math.random` in the `Moneda` constructor: the drawn values are constructor parameters,
  constrained to the ranges the code draws from (closed intervals).
- The top-level `new Game()` and the registration of the key-down listener. `Personaje.Mover`
  models what the listener does.
- IEEE floating-point rounding: coin coordinates and velocities are exact reals.
