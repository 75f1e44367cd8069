# Frogger engine, modelled in Dafny

This project models the game engine of a browser Frogger written in
TypeScript with rxjs (`src/main.ts`). The engine is a pure state transducer.
A snapshot `State` holds:

- the frog;
- nine rows of rectangular bodies: two truck rows and two car rows on the road
  (the "ground" rows), and three plank rows and two turtle rows on the river
  (the "float" rows);
- the end flags `gameOver` and `gameWin`.

`reduceState` folds two kinds of event into the snapshot. A timer `Tick` moves
every body by its velocity, wrapping rows around the canvas horizontally, and
then runs `handleCollisions`. An arrow-key `Move` displaces the frog by 40 px,
clamped to the field and blocked by the obstacle strip above y = 260, and
scores ±10.

The initial snapshot is built by nine row factories. They draw x positions
from a seeded replacement for `Math.random`, which is Robert Jenkins' 32-bit
integer hash.

Modules, in dependency order:

| module | file | what it holds |
|---|---|---|
| `Vectors` | vectors.dfy | `Vec`, `add`, `scaleX`, `scaleY` |
| `ListHelpers` | list_helpers.dfy | `map`/`filter`/`findIndex`/`some` as used by the engine, and `flatMap`, `not`, `elem`, `except` |
| `Entities` | entities.dfy | the constants, `ViewType`, the body records, `State`, the row configuration table, `createRect`, `createExit`, `exitsArr`, `createFrog`, the row shape |
| `SeededRandom` | seeded_random.dfy | the hash as a `Generator` class with a `bv32` seed field, and its pure specification |
| `Setup` | setup.dfy | the row factories and `initialState`, as methods drawing from a `Generator` and as pure functions of the seed |
| `Kinematics` | kinematics.dfy | `torusWrap`, `moveRectBody`, `moveFrog`, `obstacleCond`, `moveFrogByKey` |
| `Collisions` | collisions.dfy | `handleCollisions` and its parts, and the laws about them |
| `Engine` | engine.dfy | `Event`, `tick`, `reduceState`, and the game stream as a fold |
| `Invariants` | invariants.dfy | the invariant that every reachable snapshot satisfies |
| `Scenarios` | scenarios.dfy | run-level consequences: safe zones, win excludes loss, the first moves, the arrow-key grid |

Modelling choices:

- Numbers are exact `real`s for coordinates and `int` for the score.
- The generator's arithmetic is `bv32`. JavaScript's `& 0xffffffff` and `<<`
  act on the 32-bit pattern, and `>>>` is a logical shift. So each of the six
  mixing steps is exactly a `bv32` expression, and the returned value is the
  low 28 bits over 2^28.
- The row factories call `Math.random`, which changes the generator's hidden
  seed, so they are methods on a `Generator`. Each one is proved equal to a pure
  function of the seed (`Setup.RowFrom`, `Setup.InitialStateOf`). Everything
  else in the engine is a function.
- In the source, each factory is a closure chain with its own literal
  arguments. The model passes those same arguments (count, lane y, size,
  velocity) as one `RowConfig` value per row.
- The game stream is `merge(...).pipe(scan(reduceState, initialState))`, and
  `updateView` unsubscribes on the first snapshot with `gameOver` or `gameWin`.
  It is modelled by `Engine.Play`, a fold over a finite sequence of events that
  stops at the first ended snapshot.

Notes on how `src/main.ts` behaves, each stated by a lemma:

- **The ground hit test needs closeness on both axes.** `groundBodiesCollided`
  first rejects a frog that is farther than `radius` beyond the body's
  half-extent on either axis. Only then does it accept the frog if it lies
  within the half-extent on one axis. `Collisions.GroundHit` states the test as
  "inside the body stretched by `radius` vertically or horizontally".
  `Collisions.GroundHitNeedsBothAxes` gives a frog inside a truck's x-span that
  is not hit.
- **`moveFrogByKey` clamps to [0, 600].** A candidate inside [0, 600] is kept
  even when it is below 20 or above 580; only a candidate outside the field is
  replaced by 20 or 580. Runs of arrow keys from the spawn point stay in
  [20, 580], because x = 300 = 20 + 40 * 7 stays on the grid 20 + 40k
  (`Scenarios.ArrowRunFromStart`). After a float has carried the frog off the
  grid, no such bound holds.
- **The blocked strip covers the right edge but not the left one.** The last
  interval of `obstacleCond` runs to 670, so a candidate up to 70 past the
  right edge and above y = 260 is snapped to (580, 260)
  (`Kinematics.RightEdgeBlocked`). The first interval starts at 0, so a
  candidate past the left edge is not blocked. The clamp then sets its x to 20,
  which lies inside the blocked interval [0, 30]. From (35, 240), a left move
  lands the frog at (20, 240), in the strip and in no exit column
  (`Kinematics.LeftClampIntoStrip`).
- **The end flags are not sticky in the engine.** Every tick recomputes them,
  and `Scenarios.TickCanClearGameOver` shows a tick that clears `gameOver`.
  The game ends because `updateView` cancels the subscription on the first
  snapshot with a flag set, and `Engine.Play` models that.

## Model

| member | source | states |
|---|---|---|
| Vectors.Add | src/main.ts:555 | the sum's components exceed the first operand's by the second operand's |
| Vectors.ScaleX | src/main.ts:558 | the distance from the body's horizontal centre is non-negative, and at most w/2 exactly when x lies in the body's x-span |
| Vectors.ScaleY | src/main.ts:559 | the same for the vertical centre and the y-span |
| Vectors.ScaleXWithin | src/main.ts:558 | scaleX is at most w/2 + d exactly when x lies in the x-span widened by d on both sides |
| Vectors.ScaleYWithin | src/main.ts:559 | the same for y and the y-span |
| ListHelpers.FindIndex | src/main.ts:600 | `findIndex`: -1 when no element satisfies p, else the first index that does |
| ListHelpers.Map | src/main.ts:343 | `map`: same length, element i is f of input element i |
| ListHelpers.Filter | src/main.ts:329-332 | `filter`: no longer than the input, and x is in the result exactly when x is in the input and satisfies p |
| ListHelpers.FilterConcat | src/main.ts:611 | `filter` of a concatenation is the concatenation of the two filters, so order and repeats are kept |
| ListHelpers.FilterSingleton | src/main.ts:611 | `filter` of one element keeps it exactly when it satisfies p |
| ListHelpers.FilterFirstOfConcat | src/main.ts:342-351 | the first qualifying element of a concatenation comes from the first part when it has one, otherwise the filter is the second part's |
| ListHelpers.Any | src/main.ts:342 | `some`: some element satisfies p; `FilterFirst` ties it to `filter` and `findIndex` |
| ListHelpers.FilterFirst | src/main.ts:342-351 | a filtered array is non-empty exactly when `some` holds, and its first element is the first element satisfying p |
| ListHelpers.FlatMap | src/main.ts:568-573 | `flatMap`: y is in the result exactly when y is in f(x) for some x in the input; order and repeats are in `FlatMapConcat` and `FlatMapSingleton` |
| ListHelpers.FlatMapConcat | src/main.ts:568-573 | `flatMap` of a concatenation is the concatenation of the two `flatMap`s, in order |
| ListHelpers.FlatMapSingleton | src/main.ts:568-573 | `flatMap` of one element is exactly that element's image |
| ListHelpers.Not | src/main.ts:589 | `not(f)` is the pointwise negation of f |
| ListHelpers.Elem | src/main.ts:597-600 | `elem(eq)(a)(e)` holds exactly when some element x of a has eq(e)(x) |
| ListHelpers.Except | src/main.ts:608-611 | `except(eq)(a)(b)`: x is in the result exactly when x is in a and eq(x) matches no element of b |
| ListHelpers.ExceptConcat | src/main.ts:608-611 | `except` of a concatenation is the concatenation of the two results, so it keeps a's order and repeats |
| ListHelpers.ExceptSingleton | src/main.ts:608-611 | `except` of one element drops it exactly when `elem` finds it in b |
| Entities.ViewName | src/main.ts:53-54 | every view type spells a name of at least four characters; `ViewNamePrefixFree` and `BodyIdInjective` say that names and ids determine their view type |
| Entities.DecimalString | src/main.ts:180 | `String(i)`: a non-empty digit string, one digit exactly for i < 10 |
| Entities.DecimalStringInjective | src/main.ts:180 | different indices give different strings |
| Entities.ViewNamePrefixFree | src/main.ts:53-54 | no view name is a proper prefix of another |
| Entities.BodyIdInjective | src/main.ts:156 | an id `viewType + String(i)` determines both the view type and the index, so ids differ across and within rows |
| Entities.CreateRect | src/main.ts:149-158 | the id is the view name followed by the object id, the rectangle and velocity are those given, and acc is zero |
| Entities.Spawn | src/main.ts:180-182 | factory body i is at (600 * draw, laneY) with id = view name + String(i) and the row's view type, size and velocity, acc zero |
| Entities.Row | src/main.ts:176-246 | a factory row has one body per drawn value |
| Entities.RowSnoc | src/main.ts:179-182 | drawing one more value appends exactly one body, with the next index |
| Entities.RowFacts | src/main.ts:176-246 | with draws in [0, 1), body i has id = view name + String(i), the row's view type, size and velocity, zero acc, the lane's y, x = 600 * draw i, and so x in [0, 600) |
| Entities.RowIdsDistinct | src/main.ts:176-246 | no two bodies of a row share an id |
| Entities.CreateExit | src/main.ts:120-125 | an exit slot carries the given rectangle, view type and occupancy |
| Entities.ExitsArr | src/main.ts:128-131 | exactly four unoccupied 60x40 exit slots at x = 30 + 160i on y = 190 |
| Entities.CreateFrog | src/main.ts:134-145 | the frog spawns at (300, 780) at rest, with radius 10 and score 0 |
| SeededRandom.Fraction | src/main.ts:626 | the returned value is in [0, 1) and is the low 28 bits of the seed over 2^28 |
| SeededRandom.Jenkins | src/main.ts:619-625 | the opening mask is the identity on a 32-bit seed, so a call is the six mixing steps in order |
| SeededRandom.Draws | src/main.ts:615-628 | n calls return n values, the i-th a function of the seed after i + 1 hash steps alone |
| SeededRandom.DrawsInUnitInterval | src/main.ts:626 | every drawn value is in [0, 1) |
| SeededRandom.SeedAfterSplit | src/main.ts:615-628 | m calls then n calls leave the seed where m + n calls do |
| SeededRandom.DrawsSplit | src/main.ts:615-628 | the values of m calls followed by n more are the values of m + n calls |
| SeededRandom.FirstDraw | src/main.ts:616-626 | from 88888888 the first call leaves the seed at 0x59d8e5d7 and returns 0x9d8e5d7 / 2^28 |
| SeededRandom.Generator.constructor | src/main.ts:616 | a fresh generator holds the initial seed 88888888 |
| SeededRandom.Generator.Next | src/main.ts:617-627 | one call advances the seed by one hash step and returns the new seed's fraction, in [0, 1) |
| Setup.RowFrom | src/main.ts:176-246 | a row built from a seed has the row's configured count of bodies |
| Setup.InitialStateOf | src/main.ts:248-264 | the initial snapshot has time 0, the spawned frog, no stored exits and both flags false |
| Setup.MakeRow | src/main.ts:179-182 | running a factory returns the row the seed determines and advances the generator by one call per body |
| Setup.CreateInitialState | src/main.ts:176-264 | running the nine factories returns the initial snapshot the seed determines and advances the generator by 22 calls |
| Setup.TwoSessions | src/main.ts:615-628 | two sessions from fresh generators build identical initial snapshots |
| Kinematics.TorusWrap | src/main.ts:267-271 | y is never changed; x is kept in [-width, 600], shifted by +(width + 600) past the left edge and by -(width + 600) past the right edge |
| Kinematics.WrapKeepsBand | src/main.ts:267-271 | a step of at most one width from inside the band lands back in the band |
| Kinematics.MoveRectBody | src/main.ts:274-278 | the body moves to `torusWrap(pos + vel)` (so y advances by vel.y); vel grows by acc; no other field changes; a body in the band with speed at most its width stays in the band |
| Kinematics.MoveFrog | src/main.ts:281-285 | only pos and vel change; the displacement is exactly vel; vel is kept without acceleration |
| Kinematics.ObstacleCond | src/main.ts:293-300 | a blocked candidate lies above y = 260 with x in [0, 670] |
| Kinematics.ObstacleStripIsComplementOfExits | src/main.ts:293-300 | above y = 260 and inside the field, a candidate is let through exactly when it is strictly inside an exit slot's x-span |
| Kinematics.MoveFrogByKey | src/main.ts:306-314 | x is in [0, 600]: kept in the field, 20 left of it, 580 right of it; y is at most 800: 260 when blocked, 780 below the field, else the candidate |
| Kinematics.KeyMoveAvoidsObstacles | src/main.ts:293-314 | a key move inside the field that ends above y = 260 ends inside an exit column |
| Kinematics.LeftClampIntoStrip | src/main.ts:293-312 | a left move from (35, 240) is not blocked and is clamped to (20, 240), inside the blocked interval [0, 30] and in no exit column |
| Kinematics.RightEdgeBlocked | src/main.ts:293-312 | a candidate in (600, 670] above y = 260 is snapped to (580, 260) |
| Collisions.GroundHit | src/main.ts:323-327 | a hit bounds both axis distances by half-extent + radius, and is exactly containment in the body stretched vertically or horizontally by radius |
| Collisions.GroundHitAtCentre | src/main.ts:323-327 | a frog at a ground body's centre is hit |
| Collisions.GroundHitNeedsBothAxes | src/main.ts:323-327 | a frog inside a truck's x-span far above it is not hit |
| Collisions.RiverHit | src/main.ts:335-337 | a hit is exactly containment in the rectangle shrunk by the frog's radius on every side |
| Collisions.RiverHitStrict | src/main.ts:335-337 | strictly inside the shrunk rectangle is a hit, strictly outside it is not |
| Collisions.FloatVel | src/main.ts:342-352 | the carried velocity is that of the first carrying body among all float bodies taken row by row in the order plank1, plank2, plank3, turtle1, turtle2, and zero when none carries the frog |
| Collisions.InRiver | src/main.ts:355 | the frog is in the river band exactly when 150 <= y <= 440 |
| Collisions.HandleCollisions | src/main.ts:319-391 | only the frog's velocity and the two flags change, and the velocity becomes a carried row velocity or zero |
| Collisions.GroundRowHitIff | src/main.ts:329-332 | a ground row reports a hit exactly when one of its bodies hits the frog |
| Collisions.FloatRowHitIff | src/main.ts:358-363 | a float row reports a hit exactly when one of its bodies carries the frog, in the `filter` and the `some` forms alike |
| Collisions.FirstFloatOfRow | src/main.ts:342-351 | `filter(...)[0]` of a row is its first body that carries the frog |
| Collisions.FloatRowsHitIff | src/main.ts:342-371 | the same for all five float rows |
| Collisions.CarriedVelocity | src/main.ts:342-386 | in the river band, the frog takes the velocity of the first carrying body of the first row, in the order plank1, plank2, plank3, turtle1, turtle2, that carries it |
| Collisions.NotCarried | src/main.ts:355-386 | outside the river band, or on no float, the frog's velocity becomes zero |
| Collisions.GameOverIff | src/main.ts:329-387 | gameOver holds exactly for a ground hit, or the river band with no float and no exit, or x outside [0, 600] |
| Collisions.ExitHitIff | src/main.ts:379 | `exitsArr.some(...)` holds exactly when the frog is in one of the four fixed exit slots |
| Collisions.GameWinIff | src/main.ts:379-389 | gameWin holds exactly for y in [200, 220] and x in [40, 80], [200, 240], [360, 400] or [520, 560] |
| Engine.Advance | src/main.ts:395-408 | before collisions: time becomes elapsed, exits and flags are kept, the frog is `moveFrog`ed and every row is moved body by body by `moveRectBody`, with its length kept |
| Engine.TickStep | src/main.ts:394-409 | time becomes elapsed, exits and score are kept, the frog advances by its old velocity, and every row keeps its length, ids and sizes, every body moves to `torusWrap(pos + vel)`, and bodies without acc keep their velocity |
| Engine.ReduceState | src/main.ts:412-424 | a key press changes only the frog's position, to `moveFrogByKey`'s, and its score |
| Engine.MoveScore | src/main.ts:412-422 | +10 for an unblocked up move, -10 for a down move from y at most 800, unchanged otherwise |
| Engine.Play | src/main.ts:538-541 | once a snapshot has ended, no further event changes it |
| Engine.Ended | src/main.ts:479-480 | the snapshot on which `updateView` unsubscribes: `gameOver` or `gameWin` is set |
| Invariants.MovedRowOk | src/main.ts:274-278 | a tick keeps a row with horizontal speed at most its width as its factory made it, up to x in the band |
| Invariants.FloatBodyVel | src/main.ts:342-351 | the carried velocity of a row is the row's configured velocity |
| Invariants.FloatVelHorizontal | src/main.ts:342-352 | the frog only ever picks up horizontal velocities |
| Invariants.AdvanceKeepsRows | src/main.ts:394-408 | moving the world keeps all nine rows as their factories made them, up to x in the band |
| Invariants.CollisionsKeepRows | src/main.ts:381-390 | collision handling keeps the row invariant |
| Invariants.CollisionsKeepFrog | src/main.ts:381-386 | collision handling keeps the frog's id, radius and zero acc, and a horizontal velocity |
| Invariants.TickKeepsInvariant | src/main.ts:394-409 | a tick keeps the invariant |
| Invariants.ReduceKeepsInvariant | src/main.ts:412-424 | every event keeps the invariant |
| Invariants.PlayKeepsInvariant | src/main.ts:538-541 | every run of events keeps the invariant |
| Invariants.RowFromOk | src/main.ts:176-246 | a factory row satisfies the row invariant, with x in [0, 600) |
| Invariants.InitialInvariant | src/main.ts:248-264 | the initial snapshot satisfies the invariant, and every body in it has x in [0, 600) on its lane |
| Invariants.ReachableInvariant | src/main.ts:394-424 | every snapshot reachable from a fresh session has every row at its spawn count, ids, sizes, velocities and lanes, with x in [-width, 600] |
| Scenarios.GroundRowOutOfReach | src/main.ts:323-332 | a ground row cannot reach a frog more than 10 above or below its lane |
| Scenarios.GroundSafeOutsideLanes | src/main.ts:329-332 | no ground body hits a frog with y below 490 or above 750 |
| Scenarios.WinExcludesOverAt | src/main.ts:381-389 | collision handling never reports a win and a loss together |
| Scenarios.FloatIsSafe | src/main.ts:358-387 | a frog on a float in the river band and inside the field does not lose |
| Scenarios.WinExcludesOver | src/main.ts:394-409 | a winning tick is never also a losing one |
| Scenarios.QuietTick | src/main.ts:394-409 | a tick that leaves the frog below the road and inside the field ends nothing |
| Scenarios.FirstTickRunning | src/main.ts:248-264 | the first tick of a session ends nothing and leaves the frog at (300, 780) |
| Scenarios.FirstMoveUp | src/main.ts:412-416 | the first up move takes the frog to (300, 740) and scores 10 |
| Scenarios.DownAtBottomEdge | src/main.ts:419-420 | a down move at y = 780 leaves the frog at y = 780 and still costs 10 points |
| Scenarios.ArrowMoveStaysOnGrid | src/main.ts:306-314 | an arrow key moves a frog on column k of the grid 20 + 40k to column k - 1, k or k + 1, clamped to columns 0 to 14 |
| Scenarios.ArrowRunClamp | src/main.ts:72-75 | a run of arrow keys alone keeps a frog on the grid, so x stays in [20, 580] |
| Scenarios.ArrowRunFromStart | src/main.ts:72-75 | from the spawn point, arrow keys alone keep x in [20, 580] |
| Scenarios.PlayConcat | src/main.ts:538-541 | playing two runs one after the other is playing their concatenation |
| Scenarios.TickCanClearGameOver | src/main.ts:381-389 | the engine recomputes gameOver on every tick, so it is the stream that makes it terminal |

## Left out

- `updateView`, SVG/DOM creation, the score text and the game-over and win
  overlays (src/main.ts:427-529), `attr`, and `src/svgelements.ts`. These are
  DOM side effects.
- The rxjs plumbing: `gameClock`, `keyObservable`, `merge`, `scan` and the
  subscription. The model takes the events as a finite sequence, already
  mapped to `Tick(elapsed)` or `Move(dx, dy)`. The key filters (code, no
  repeat) and the 10 ms timer are not modelled.
- The commented-out exit occupation, reset and next-round logic. It is not
  part of the program.
- IEEE-754 rounding of JavaScript numbers. Positions are exact reals. The
  generator's result is exact, being a 28-bit integer over 2^28.
- `Vec.len`, `objCount` and `createTime`. Nothing in the engine reads them.
  Bodies carry no creation time, and `State` carries no object count.
- Kinematics.MoveFrogByKey: the third parameter `s` is dropped, because the
  function never reads it.
- The `id`/`createTime` object that is passed to `createRect`. It is modelled
  by its `id` string alone.
- Engine.Play: events after the first ended snapshot are dropped, because the
  subscription is cancelled. The asynchronous timing of that cancellation is
  not modelled.
