# Frogger reducer, modelled in Dafny

This project models the game logic of a small Frogger-style browser game. A
frog crosses a road of cars and a river of logs to reach one of three goal
zones. The game is a fold of a pure reducer, `reduceState`, over a merged
stream of timer ticks and arrow-key moves. The model covers:

- the entity records (frog, car, log, goal zone) and the game state;
- the factories `createFrog`, `createCar`, `createLog` and `createTarget`,
  and `initialState`;
- the helpers `isMoveKey`, `newMove`, `moveObj`, `isOnRiver` and `collided`;
- `reduceState`, with its three event cases: tick, move, anything else.

Modules:

- `Entities` (`entities.dfy`): constants, datatypes, factories, initial state.
  Cars and logs share one `Body` datatype, as in the union type `Body = Car | Log`.
- `Controls` (`controls.dfy`): arrow keys and the moves they ask for.
- `Physics` (`physics.dfy`): body movement, the river band, the collision test.
- `Reducer` (`reducer.dfy`): the tick step, the move step, and `ReduceState`.
- `Reachability` (`reachability.dfy`): the fold over a sequence of events,
  and the invariant that every reachable state keeps.

Coordinates, widths, speeds, directions and the frog's radius are exact
`real`s. Every value the game produces is a small multiple of 0.5, so this
matches the game's double arithmetic. The tick counter and the score are
integers. Row parity in the factories is tested with `row % 2 == 0`. JavaScript's
`%` truncates and Dafny's is Euclidean, but they agree on whether the
remainder is zero.

Four points about what the code does:

- On a tick that resets the frog from a goal zone, cars and logs still move.
  The code moves them on every tick.
- The frog is carried by the first log it collides with, in list order. It is
  not required to collide with exactly one log.
- `gameOver` is recomputed on every tick, from the frog and bodies as they
  were before the tick. The reducer does not keep it true once set; only the
  view stops the stream.
- The comment at src/main.ts:302 says +100, but line 303 adds 50.

## Model

| member | source | states |
|---|---|---|
| Entities.CreateFrog | src/main.ts:147-154 | The frog starts at (FROG_START_X, FROG_START_Y) = (300, 580) with radius 17.5, the point every goal reset sends it back to. That is the bottom grid row, fully inside the canvas horizontally. |
| Entities.CreateCar | src/main.ts:157-166 | A car keeps its id and speed and has width 50. Its direction is +1 exactly on odd rows and -1 otherwise. A rightward car starts at x = 0 and a leftward one at x = 500. Rows 1-4 lie inside the drawn road and are aligned to a grid row. |
| Entities.CarRowsDistinct | src/main.ts:161 | Cars made for different rows are on different rows of the canvas. |
| Entities.CreateLog | src/main.ts:169-178 | A log keeps its id and speed and has width 120. Its direction is +1 exactly on odd rows. A rightward log starts at x = 0 and a leftward one at x = 500. Rows 1-4 lie inside the drawn river and are aligned to a grid row. |
| Entities.LogRowsDistinct | src/main.ts:173 | Logs made for different rows are on different rows of the canvas. |
| Entities.CreateTarget | src/main.ts:181-189 | A goal zone starts unoccupied, 40 wide, on a grid row above the river. Columns 1-3 lie inside the canvas. |
| Entities.TargetsDisjoint | src/main.ts:184 | Goal zones made for different columns do not overlap: the lower column's zone ends before the higher one's begins. |
| Entities.InitialState | src/main.ts:135-143 | The game starts at time 0, score 0, not over, with the frog of `CreateFrog`. There are 4 cars in the road band and 4 logs in the river band, each on its own row, and 3 unoccupied goal zones. Neighbouring lanes run in opposite directions, and all speeds are positive. |
| Entities.LaneDirection | src/main.ts:163 | A lane's direction is +1 or -1, and it is +1 exactly when the row is odd. |
| Entities.AdjacentLanesOpposite | src/main.ts:175 | Neighbouring rows always have opposite directions. |
| Controls.IsMoveKey | src/main.ts:204-206 | Exactly the four keys ArrowUp, ArrowDown, ArrowLeft and ArrowRight are accepted, and all of them start with "Arrow". |
| Controls.NewMove | src/main.ts:256-261 | Every key gives a move that changes exactly one axis, by exactly 40. Up and Down move y, and Left and Right move x, with the expected signs. Any other key falls through to a move right. |
| Controls.NewMoveRoundTrip | src/main.ts:256-261 | For each arrow key, `NewMove` gives one of the four keyboard moves, and `KeyOf` recovers the key from that move. |
| Controls.KeyOfRoundTrip | src/main.ts:256-261 | Every one of the four keyboard moves is produced by the arrow key that `KeyOf` names. |
| Controls.NewMoveInjective | src/main.ts:204-206 | The four keys `isMoveKey` accepts give four different moves. |
| Physics.MoveObj | src/main.ts:250-253 | Only x changes, in one of four ways. With direction 1 and x > 650, x becomes -width; with direction 1 otherwise, x becomes x + speed. With any other direction and x < -width, x becomes 650; otherwise x becomes x - speed. |
| Physics.MoveObjStaysInLane | src/main.ts:250-253 | A body inside its lane range [-width - speed, 650 + speed] stays inside it. On a ±1 lane it either moves by exactly speed * direction or wraps to the edge it is moving away from. |
| Physics.MoveAll | src/main.ts:296-297 | Moving a list keeps its length and order and applies `MoveObj` to each body. |
| Physics.IsOnRiver | src/main.ts:264-266 | The river test holds exactly when the frog's y lies strictly inside the drawn river band, 200 < y < 360. |
| Physics.RiverRows | src/main.ts:264-266 | On a grid row, the frog is in the river band exactly when its y is 220, 260, 300 or 340. |
| Physics.Collided | src/main.ts:269-275 | A collision needs the rectangle's y + 20 to equal the frog's y, and puts the frog's centre within one radius of the rectangle's horizontal extent. A frog of positive radius on the rectangle's row with its centre over the rectangle always collides. |
| Physics.CollidedIffOverlap | src/main.ts:269-275 | For a positive radius and width, the collision test holds exactly when the rows align (body y + 20 equals frog y) and some point lies strictly inside both horizontal extents. |
| Physics.FirstHitUnique | src/main.ts:288-289 | At most one index is the first colliding body of a list. |
| Physics.Colliding | src/main.ts:288-289 | The filter keeps only bodies of the list that collide, keeps every one that does, and is non-empty only if its head is the first colliding body in list order. |
| Reducer.AnyFrogOn | src/main.ts:279 | The negated all-false test holds exactly when some goal zone's flag is set. |
| Reducer.Ride | src/main.ts:290-293 | A log moves the frog by the log's speed * direction when the frog's x is strictly inside the log, and leaves x unchanged otherwise. |
| Reducer.CarriedX | src/main.ts:284-294 | With no colliding log the frog's x is unchanged. Otherwise the first colliding log moves the frog by speed * direction exactly when the frog's x is strictly inside that log, and leaves x unchanged otherwise. |
| Reducer.ClearTargets | src/main.ts:299 | Every goal flag is lowered; nothing else of a goal zone changes. |
| Reducer.MarkTargets | src/main.ts:299 | Each goal flag becomes whether the frog collides with that zone; nothing else changes. |
| Reducer.GameOverAfter | src/main.ts:301 | The game is lost exactly when the frog collides with some car, or it is in the river band and collides with no log. |
| Reducer.TickStep | src/main.ts:278-303 | A tick sets time to elapsed and moves every car and log. It keeps all ids, rows, widths and list lengths. `gameOver` is computed from the pre-tick frog and bodies. If any goal flag was set, the frog goes to (300, 580), all flags clear and the score gains 50. Otherwise the score stays, the frog keeps its row and rides its log, and each flag becomes whether the old frog collides with that zone. |
| Reducer.MoveStep | src/main.ts:304-310 | A move changes only the frog's position. x lands in [0, 600]: 20 when x + dx < 0, 580 when x + dx > 600, else x + dx. y becomes y + dy only when that stays in [0, 600]. |
| Reducer.ReduceState | src/main.ts:278-312 | Any other event returns the state unchanged. A move changes only the frog. No event changes the cast of cars, logs and goal zones. The score either stays the same or rises by exactly 50, and it rises only on a tick that resets the frog to its start. |
| Reducer.DrownsWithoutLog | src/main.ts:301 | A frog in the river band that no log is under makes the next tick end the game. |
| Reducer.SafeOnLog | src/main.ts:301 | A tick does not end the game for a frog that collides with some log and with no car. |
| Reducer.RidesLog | src/main.ts:284-294 | On a tick with no goal flag set, a frog strictly inside its first colliding log moves by that log's speed * direction and keeps its row. |
| Reducer.HitByCar | src/main.ts:301 | A frog colliding with any car makes the next tick end the game. |
| Reachability.Run | src/main.ts:382 | Folding the reducer over any sequence of events, as the stream's `scan` does, keeps the cast of cars, logs and goal zones and never lowers the score. |
| Reachability.InitialStateInv | src/main.ts:135-143 | The initial state satisfies the reachable-state invariant. |
| Reachability.InitialLogRows | src/main.ts:173 | The four initial logs have y + 20 equal to 220, 260, 300 and 340. |
| Reachability.KeyMoveStaysOnGrid | src/main.ts:309 | An arrow-key move keeps the frog's y on one of the fifteen grid rows. |
| Reachability.MoveAllKeepsLaneBound | src/main.ts:296-297 | Moving every body keeps each one inside its lane range. |
| Reachability.StepKeepsScoreWhole | src/main.ts:303 | Any event keeps the score a non-negative multiple of 50. |
| Reachability.TickKeepsFrogOnGrid | src/main.ts:284 | A tick keeps the frog on a grid row, with its id and radius: either its row is unchanged or it is back at y = 580. |
| Reachability.TickKeepsInv | src/main.ts:278-303 | A tick preserves the invariant: the same cast as the starting state, bodies in lane range, the same frog on a grid row, and a score that is a non-negative multiple of 50. |
| Reachability.MoveKeepsInv | src/main.ts:304-310 | An arrow-key move preserves the invariant. |
| Reachability.StepKeepsInv | src/main.ts:278-312 | Every tick and arrow-key event preserves the invariant. |
| Reachability.RunKeepsInv | src/main.ts:382 | Folding the reducer over any sequence of ticks and arrow-key moves preserves the invariant. |
| Reachability.RunScoreMonotone | src/main.ts:303 | Along any sequence of events, a score that starts as a non-negative multiple of 50 stays a multiple of 50. |
| Reachability.ReachableFrogRows | src/main.ts:278-312 | In every state reachable from the start, the frog is on one of the rows y = 20, 60, ..., 580. Whenever it is in the river band, some log's y + 20 equals its y. There are always the same 4 cars, 4 logs and 3 goal zones, each with its id. |

## Left out

- The SVG view is side-effecting browser output: the score and instruction text, `createRectView`, the frog, river, road and goal-zone shapes, `updateCarView`, `updateLogView` and `updateView` (src/main.ts:26-56, 192-201, 211-231, 316-379).
- The RxJS wiring is event-loop plumbing over a foreign library: `interval`, `fromEvent`, the key-repeat filter, `merge`, `scan` and `subscribe`. `Reachability.Run` folds the reducer over a given finite sequence of events instead. `Reachability.StreamEvent` admits every event those streams deliver: ticks with any counter, and the four arrow-key moves. The timer only counts 0, 1, 2, ... in order, which the model does not require.
- Game-over termination happens only in the view, which unsubscribes the stream. Nothing states that `gameOver` stays true in the reducer, because it does not.
- The `window.onload` bootstrap and the stylesheet import are not modelled.
- The `GAME_TICK` timer interval belongs to the stream wiring and is not modelled. `BODY_MOVE_DIST` is never read by the game and is not modelled either.
- IEEE double arithmetic is replaced by exact reals, because every value the game computes is a small multiple of 0.5.
- String `id` fields are carried through unchanged, and nothing else is said about them.
