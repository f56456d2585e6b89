# Maze horror game core, modelled in Dafny

The model covers the game logic of a Unity first-person maze horror game.

- **Maze generator** (`MazeGenerator`): carves a `mazeWidth x mazeHeight` grid with a randomized backtracker.
  - Each cell stores only its top and left walls.
  - A cell is marked visited when it is *left*, not when it is entered.
- **Spawn manager** (`MazeSpawn`): places the player in the carved maze. It tries a 2x2 clear area first, then a single open cell, then a fixed default.
- **Renderer** (`MazeRenderer`): turns the stored flags into one cell object per grid cell, with four wall flags.
- **Enemy behaviour** (`AIMovement`): a four-state machine (patrolling, chasing, searching, waiting at a patrol point).
  - Its two coroutines become explicit task values that each frame resumes after `Update`: the search around the last known player position, and the pause at a patrol point.
- **Enemy sight** (`VisionCone`): the per-frame scan and the point query.
- **Flashlight** (`Flashlight`): each frame it clears and rebuilds the set of lit monsters, and keeps a record of each monster's light state.
- **Player health** (`PlayerHealth`): a counter guarded by an invincibility timer.

## How engine services appear

Nothing of the engine is modelled; everything it answers is an input.

| Engine service | How the model takes it |
|---|---|
| `Random.Range` draws of the direction shuffle | an oracle `rolls: nat -> seq<nat>`; the n-th neighbour check uses `rolls(n)` |
| `Random.insideUnitSphere` | a per-frame offset |
| Physics queries (`OverlapSphere`, `Raycast`, `RaycastAll`) | per-candidate or per-hit records of angle, distance, dot product and nearest obstacle |
| NavMesh path and sample queries | booleans, options or functions carried by the frame |
| `agent.remainingDistance <= stoppingDistance` | a per-frame `reached` flag |
| `Time.time` and `Time.deltaTime` | per-frame values |

Unity's cap on delta time is `maxDeltaTime`. Floats are modelled as reals, and vectors as `Engine.Vec3`.

Per-frame order follows Unity's: `Update` runs first. Then the coroutines that were already suspended resume, first the search, then the patrol waits.

## Behaviours of the code worth knowing

- **Leaving the wait.** When a wait at a patrol point ends, `WaitAtPatrolPoint` (Assets/Scripts/AiMovement.cs:286-291) only calls `MoveToNextPatrolPoint`.
  - Nothing sets the state back, so it stays `WaitingAtPatrol` until the player is sighted.
  - `AIMovement.WaitsResumed` proves the state is left alone.
- **How long a search lasts.** `SearchForPlayer` (Assets/Scripts/AiMovement.cs:248-284) adds to `searchTime` only when a search point is done, by that point's timeout plus its turning time.
  - A point whose path query fails adds nothing.
  - See `AIMovement.ResumeSearch`.
- **Two mazes.** The renderer (Assets/Scripts/MazeRenderer.cs:87) and the spawn manager (Assets/Scripts/MazeSpawnManager.cs:12) each call `GetMaze`.
  - Each call allocates and carves a fresh grid with its own random draws.
  - `MazeRenderer.GenerateMaze` and `MazeSpawn.Start` therefore each take their own `rolls`.
- **The start-cell clamp.** The clamp tests `y` against `mazeWidth` (Assets/Scripts/MazeGenerator.cs:126). In a grid wider than it is high, a start row from the height up to the width passes unchanged (`MazeGenerator.StartClampMissesRows`).
  - Start row equal to the height: the cell below is a valid neighbour, so the loop moves down (`MazeGenerator.MazeGenerator.StartOnTopRowMovesDown`). Marking the start visited (line 166) then indexes outside the array.
  - Start row above the height: no neighbour is valid (`MazeGenerator.MazeGenerator.StartAboveTopRowStops`). The loop ends at once, and `GetMaze` returns the uncarved grid without an error.
  - The carving methods require `StartFits`, meaning the clamped start lies in the grid. `MazeGenerator.StartFitsCases` shows that it holds for any start inside the grid, and for any start when the grid is at least as high as it is wide.
- **The chase prediction.** `HandleChaseState` overwrites `lastKnownPlayerPos` with the sighted position just before `PredictTargetPosition` reads it. The extrapolated velocity is therefore always zero.
  - `AIMovement.Predict` states the consequence: with equal positions, the prediction is the NavMesh sample of the target's own position, or that position when sampling fails.
  - `AIMovement.Chased` states the chase destination in exactly these terms.

## Model

| member | source | states |
|---|---|---|
| `MazeGenerator.ShuffledPermutes` | Assets/Scripts/MazeGenerator.cs:44-60 | Repeatedly drawing an in-range index and removing that entry yields a permutation: same length, each entry as often as before. |
| `MazeGenerator.ShuffledDirectionsComplete` | Assets/Scripts/MazeGenerator.cs:39-60 | The shuffled direction list has length 4 and holds each of Up, Down, Left, Right exactly once. |
| `MazeGenerator.MazeGenerator.GetRandomDirections` | Assets/Scripts/MazeGenerator.cs:44-60 | The emptying loop returns the shuffle the draws determine, which has length 4 and holds each direction exactly once. |
| `MazeGenerator.WallBetween` | Assets/Scripts/MazeGenerator.cs:105-122 | For two cells, the flag BreakWalls clears. There is none exactly when the cells coincide. For orthogonal neighbours it is the left wall of the cell with the larger x, or the top wall of the cell with the smaller y. |
| `MazeGenerator.CarveStart` | Assets/Scripts/MazeGenerator.cs:126-133 | A start inside width x width is kept, and any other start becomes (0, 0). The result lies inside width x width, not inside the grid. |
| `MazeGenerator.StartClampMissesRows` | Assets/Scripts/MazeGenerator.cs:126-133 | In a grid wider than high, the start (0, mazeHeight) passes the clamp unchanged and lies outside the grid. |
| `MazeGenerator.StartFitsCases` | Assets/Scripts/MazeGenerator.cs:126-130 | Any start inside the grid fits, and every start fits when the grid is at least as high as it is wide. |
| `MazeGenerator.MazeGenerator.constructor` | Assets/Scripts/MazeGenerator.cs:8-10 | The configured width, height and start are the generator's own. |
| `MazeGenerator.MazeGenerator.AllocateMaze` | Assets/Scripts/MazeGenerator.cs:17-25 | A fresh width x height grid in which every cell is the one MazeCell's constructor (lines 203-213) builds: its own coordinates, unvisited, both walls standing. |
| `MazeGenerator.MazeGenerator.GetMaze` | Assets/Scripts/MazeGenerator.cs:15-31 | The result is the freshly allocated grid after carving. Coordinates are kept; visited only went false to true and walls only true to false. Every cleared wall separates two grid cells, one of them visited. Carving ends at a cell with no valid neighbour. |
| `MazeGenerator.MazeGenerator.IsCellValid` | Assets/Scripts/MazeGenerator.cs:62-66 | Valid exactly when (x, y) lies in the grid and is unvisited. |
| `MazeGenerator.MazeGenerator.CheckNeighbours` | Assets/Scripts/MazeGenerator.cs:69-102 | Returns the first valid neighbour in shuffled order. It returns the current cell exactly when no neighbour in any direction is valid, whatever the shuffle. Otherwise the result is an adjacent unvisited cell. |
| `MazeGenerator.MazeGenerator.BreakWalls` | Assets/Scripts/MazeGenerator.cs:105-122 | Exactly the flag WallBetween names is cleared; every other cell and flag is unchanged. |
| `MazeGenerator.MazeGenerator.LeaveCell` | Assets/Scripts/MazeGenerator.cs:165-166 | Opening the wall to an adjacent unvisited cell and marking the current cell visited keeps every cleared wall between grid cells with a visited side. It removes exactly the current cell from the unvisited set, and only grows cells. |
| `MazeGenerator.MazeGenerator.Backtrack` | Assets/Scripts/MazeGenerator.cs:149-161 | The backward scan only pops entries off the end of the path, and the current cell is the last entry popped (the old current cell when the path was empty). It stops either with a valid neighbour of a visited cell and a strictly shorter path, or with an empty path at a dead end. |
| `MazeGenerator.MazeGenerator.StartOnTopRowMovesDown` | Assets/Scripts/MazeGenerator.cs:126-168 | A start in the row just above the grid, over an unvisited cell, lies outside the grid yet has a valid neighbour, so the loop moves from it and marks it visited. |
| `MazeGenerator.MazeGenerator.StartAboveTopRowStops` | Assets/Scripts/MazeGenerator.cs:126-161 | A start further above the grid has no valid neighbour, so the loop dead-ends at once and carves nothing. |
| `MazeGenerator.MazeGenerator.MoveTo` | Assets/Scripts/MazeGenerator.cs:165-168 | A move appends exactly the entered cell to the path, makes it current, and removes only the cell just left from the unvisited set. |
| `MazeGenerator.MazeGenerator.CarvePath` | Assets/Scripts/MazeGenerator.cs:124-171 | The loop terminates: the unvisited set shrinks or the path measure drops. It only grows cells, keeps every cleared wall between grid cells with a visited side, and ends at a cell with no valid neighbour. |
| `MazeSpawn.FindSpawn` | Assets/Scripts/MazeSpawnManager.cs:14-55 | See the FindSpawn note below the table. |
| `MazeSpawn.OpenCellAwayFromEdge` | Assets/Scripts/MazeSpawnManager.cs:38-52 | In a carved grid, a cell with both stored walls open is never in the first column or the last row. So the single-cell fallback always picks an inner cell. |
| `MazeSpawn.Start` | Assets/Scripts/MazeSpawnManager.cs:10-56 | The maze is a fresh, carved grid grown from the walled one (as GetMaze gives it). The spawn and position are the first match ChosenSpawn describes (see the FindSpawn note). A single-cell spawn lies off the first column and the last row, and the default is used only when both scans found nothing. |
| `MazeRenderer.PlaceCells` | Assets/Scripts/MazeRenderer.cs:89-107 | Exactly one object per cell, in x-outer y-inner order. See the PlaceCells note below the table. |
| `MazeRenderer.InnerWallsMatchStore` | Assets/Scripts/MazeRenderer.cs:100-105 | Between two neighbouring grid cells, the rendered maze shows a wall exactly when the generator still holds the flag BreakWalls would clear for that pair. |
| `MazeRenderer.BorderClosed` | Assets/Scripts/MazeRenderer.cs:100-103 | In a carved, rendered maze every border cell shows its outer wall: left in the first column, right in the last, bottom in the first row, top in the last. |
| `MazeRenderer.GenerateMaze` | Assets/Scripts/MazeRenderer.cs:85-109 | The maze is a fresh, carved grid grown from the walled one (as GetMaze gives it), and the cells render exactly that grid. |
| `PlayerHealth.Hit` | Assets/Scripts/PlayerHealth.cs:39-45 | While invincible nothing changes. Otherwise health drops by exactly one and a full invincibility window starts. The timer invariant is kept. |
| `PlayerHealth.Tick` | Assets/Scripts/PlayerHealth.cs:73-85 | Health is untouched. While invincible the timer drops by the frame time, and invincibility lasts exactly while the timer stays positive. The timer invariant is kept. |
| `PlayerHealth.RunValid` | Assets/Scripts/PlayerHealth.cs:31-85 | Any sequence of contacts and frames keeps the timer invariant and never raises health. |
| `PlayerHealth.LossNeedsTime` | Assets/Scripts/PlayerHealth.cs:39-85 | Health drops at most once per window: the points lost times the window length are covered by the elapsed frame time plus the change in what is left of the window. |
| `PlayerHealth.ShieldedWhileInvincible` | Assets/Scripts/PlayerHealth.cs:41-45 | While a window is open, no contacts cost health until frames covering what is left of it have passed. |
| `PlayerHealth.GameOverNeedsTime` | Assets/Scripts/PlayerHealth.cs:6-7 | From full health, reaching zero takes at least maxHealth - 1 full invincibility windows of frame time. |
| `PlayerHealth.PlayerHealth.constructor` | Assets/Scripts/PlayerHealth.cs:15-17 | The field defaults: zero health, not invincible, timer zero. |
| `PlayerHealth.PlayerHealth.Start` | Assets/Scripts/PlayerHealth.cs:19-24 | Health starts at maxHealth. |
| `PlayerHealth.PlayerHealth.Update` | Assets/Scripts/PlayerHealth.cs:26-29 | A frame applies Tick to the fields. |
| `PlayerHealth.PlayerHealth.OnTriggerEnter` | Assets/Scripts/PlayerHealth.cs:31-37 | Only an "Enemy" contact hits. Game over is requested exactly for an enemy hit outside a window that leaves no health. |
| `PlayerHealth.PlayerHealth.TakeDamage` | Assets/Scripts/PlayerHealth.cs:39-71 | The fields become Hit of the old fields. Game over is requested exactly when the player was not invincible and health is now at most zero. |
| `PlayerHealth.PlayerHealth.HandleInvincibility` | Assets/Scripts/PlayerHealth.cs:73-85 | The fields become Tick of the old fields. |
| `VisionCone.LastQualifying` | Assets/Scripts/AIVisionCone.cs:41-58 | The last candidate passing the angle and obstacle tests, with none after it passing. It is absent exactly when no candidate passes. |
| `VisionCone.IsPositionInSight` | Assets/Scripts/AIVisionCone.cs:63-79 | True exactly when the position is within the view radius, at most half the view angle off, and no obstacle lies strictly closer than it. |
| `VisionCone.ScanStricterThanQuery` | Assets/Scripts/AIVisionCone.cs:47-52 | A target the scan sees inside the radius also passes the point query. |
| `VisionCone.QueryLooserOnEdges` | Assets/Scripts/AIVisionCone.cs:69-75 | At exactly half the view angle, or with an obstacle exactly at the target's distance, the point query passes but the scan does not. |
| `VisionCone.EnemyVisionCone.constructor` | Assets/Scripts/AIVisionCone.cs:21-23 | No target, not in sight, last known position at the origin. |
| `VisionCone.EnemyVisionCone.FindVisibleTargets` | Assets/Scripts/AIVisionCone.cs:33-60 | See the FindVisibleTargets note below the table. |
| `Flashlight.Lit` | Assets/Scripts/FlashLightDetector.cs:95-115 | The monsters lit by one ray are exactly those named by some hit with dot product above 0.5 and no obstacle before the hit distance minus 0.1. |
| `Flashlight.LitBy` | Assets/Scripts/FlashLightDetector.cs:65-89 | The monsters lit by a fan of rays are exactly those lit by some ray of it. |
| `Flashlight.PlanShape` | Assets/Scripts/FlashLightDetector.cs:65-89 | A frame casts 1 + 4 * rayCount rays (one when rayCount is not positive). The first points forward; every other ray is tilted about the up or right axis by less than the cone angle either way. |
| `Flashlight.TurnInsideCone` | Assets/Scripts/FlashLightDetector.cs:71 | Round i of rayCount turns by (i / rayCount) * coneAngle, which is at least zero and less than the cone angle. |
| `Flashlight.FlashlightDetector.constructor` | Assets/Scripts/FlashLightDetector.cs:16-17 | Starts with no lit monster and an empty record, while every monster is unlit. |
| `Flashlight.FlashlightDetector.Update` | Assets/Scripts/FlashLightDetector.cs:34-63 | See the Update note below the table. |
| `Flashlight.FlashlightDetector.SyncLightStates` | Assets/Scripts/FlashLightDetector.cs:45-62 | Afterwards the record has the same keys, and each entry equals that monster's current flag. |
| `Flashlight.FlashlightDetector.CastDetectionRays` | Assets/Scripts/FlashLightDetector.cs:65-89 | Over the whole fan, exactly the monsters LitBy names are added to the lit set and lit. Each one not yet recorded is recorded as unlit; old entries keep their values. |
| `Flashlight.FlashlightDetector.CastRound` | Assets/Scripts/FlashLightDetector.cs:69-88 | One loop round casts the four rays turned by +-(i / rayCount) * coneAngle about the up and right axes, tracked like CastDetectionRays. |
| `Flashlight.FlashlightDetector.CastRay` | Assets/Scripts/FlashLightDetector.cs:91-121 | Exactly the monsters Lit names are added to the lit set and lit, and newly seen ones are recorded as unlit. A lit monster stays exactly a listed one. |
| `Flashlight.FlashlightDetector.ClearPreviousLighting` | Assets/Scripts/FlashLightDetector.cs:123-133 | Every monster lit last frame is switched off and the lit set is emptied. |
| `Flashlight.FlashlightDetector.ResetMonsterLighting` | Assets/Scripts/FlashLightDetector.cs:135-146 | Every lit monster is switched off and recorded as unlit, other entries are kept, and the lit set is emptied. |
| `AIMovement.StateSpeed` | Assets/Scripts/AiMovement.cs:164-172 | Chasing is exactly the chase speed, searching exactly the search speed, and patrolling or waiting the patrol speed. Chasing is the fastest. |
| `AIMovement.NextState` | Assets/Scripts/AiMovement.cs:74-88 | See the NextState note below the table. |
| `AIMovement.Predict` | Assets/Scripts/AiMovement.cs:101-117 | With the last known position equal to the target's, the prediction is the target's own position snapped to the NavMesh, or that position when sampling fails. Whenever sampling the extrapolated point fails, it is the last known position. |
| `AIMovement.PatrolSlot` | Assets/Scripts/AiMovement.cs:303-306 | The slot targeted is always a valid index, and it is the index itself unless that has run past the end. |
| `AIMovement.IndexAfter` | Assets/Scripts/AiMovement.cs:298-308 | After no moves the index is the start; after any positive number of moves it lies in 1..count. |
| `AIMovement.IndexAfterSplit` | Assets/Scripts/AiMovement.cs:298-308 | Moves compose: a moves followed by b moves are a + b moves. |
| `AIMovement.PatrolInOrder` | Assets/Scripts/AiMovement.cs:298-308 | Until the end of the route, each move visits the next patrol point in order. |
| `AIMovement.PatrolPeriodic` | Assets/Scripts/AiMovement.cs:298-308 | From index 0, the moves after the first repeat with period count, so the route is walked as a cycle. |
| `AIMovement.ResumeSearch` | Assets/Scripts/AiMovement.cs:248-284 | See the ResumeSearch note below the table. |
| `AIMovement.SearchTakesTime` | Assets/Scripts/AiMovement.cs:250-276 | A search runs to completion only after frames adding up to at least searchDuration (less what the search task had already accounted for). |
| `AIMovement.MoveNext` | Assets/Scripts/AiMovement.cs:298-308 | Without patrol points nothing changes. Otherwise the index moves on once (IndexAfter one move), the destination becomes the point just passed by the index, and nothing else changes. Consistency is kept. |
| `AIMovement.MoveNextTimes` | Assets/Scripts/AiMovement.cs:298-308 | k moves in a row leave the index at IndexAfter k moves, with the destination the point of the last move. Nothing else changes. |
| `AIMovement.Pending` | Assets/Scripts/AiMovement.cs:289 | The waits still pending are no more than the given ones, and the time of every one of them is not yet up. |
| `AIMovement.PendingExactly` | Assets/Scripts/AiMovement.cs:289 | A wait is pending exactly when it is one of the given waits and its time is not yet up. |
| `AIMovement.PendingPrefix` | Assets/Scripts/AiMovement.cs:289 | Taking one more wait of a list extends the pending waits by that wait, unless its time is up. |
| `AIMovement.PendingSnoc` | Assets/Scripts/AiMovement.cs:289 | Pending keeps the order in which the waits started: a wait added last stays last, or is dropped when its time is up. |
| `AIMovement.WaitsResumed` | Assets/Scripts/AiMovement.cs:289-291 | See the WaitsResumed note below the table. |
| `AIMovement.Moved` | Assets/Scripts/AiMovement.cs:119-142 | See the Moved note below the table. |
| `AIMovement.ChaseStart` | Assets/Scripts/AiMovement.cs:221-239 | See the ChaseStart note below the table. |
| `AIMovement.SearchStart` | Assets/Scripts/AiMovement.cs:241-279 | See the SearchStart note below the table. |
| `AIMovement.Chased` | Assets/Scripts/AiMovement.cs:186-202 | See the Chased note below the table. |
| `AIMovement.StartWait` | Assets/Scripts/AiMovement.cs:286-289 | The state becomes waiting, and exactly one wait, stamped now, is added. Nothing else changes. |
| `AIMovement.Handled` | Assets/Scripts/AiMovement.cs:74-88 | See the Handled note below the table. |
| `AIMovement.Updated` | Assets/Scripts/AiMovement.cs:69-89 | See the Updated note below the table. |
| `AIMovement.SearchResumed` | Assets/Scripts/AiMovement.cs:248-284 | See the SearchResumed note below the table. |
| `AIMovement.Stepped` | Assets/Scripts/AiMovement.cs:69-89 | See the Stepped note below the table. |
| `AIMovement.AIMovement.constructor` | Assets/Scripts/AiMovement.cs:42-50 | The field defaults: patrolling, index 0, not lit, no search and no pending wait. |
| `AIMovement.AIMovement.Start` | Assets/Scripts/AiMovement.cs:52-67 | The fields become MoveNext of the old fields with the agent at patrol speed. |
| `AIMovement.AIMovement.SetInLight` | Assets/Scripts/AiMovement.cs:91-99 | The flag is set and the agent is stopped exactly when lit. Nothing else changes. |
| `AIMovement.AIMovement.MoveToNextPatrolPoint` | Assets/Scripts/AiMovement.cs:298-308 | The fields become MoveNext of the old fields. |
| `AIMovement.AIMovement.Tick` | Assets/Scripts/AiMovement.cs:69-89 | The fields become Stepped of the old fields, and the invariant is kept. |
| `AIMovement.AIMovement.Update` | Assets/Scripts/AiMovement.cs:69-89 | The fields become Updated of the old fields. |
| `AIMovement.AIMovement.UpdateMovement` | Assets/Scripts/AiMovement.cs:119-142 | The fields become Moved of the old fields. |
| `AIMovement.AIMovement.HandlePatrolState` | Assets/Scripts/AiMovement.cs:174-184 | The fields become Handled of the old fields, from the patrolling state. |
| `AIMovement.AIMovement.HandleChaseState` | Assets/Scripts/AiMovement.cs:186-207 | The fields become Handled of the old fields, from the chasing state. |
| `AIMovement.AIMovement.HandleSearchState` | Assets/Scripts/AiMovement.cs:209-213 | The fields become Handled of the old fields, from the searching state. |
| `AIMovement.AIMovement.HandleWaitState` | Assets/Scripts/AiMovement.cs:215-219 | The fields become Handled of the old fields, from the waiting state. |
| `AIMovement.AIMovement.PredictTargetPosition` | Assets/Scripts/AiMovement.cs:101-117 | Only the predicted position changes, to Predict of the sighted position, the last known position and the frame time. |
| `AIMovement.AIMovement.TransitionToChasing` | Assets/Scripts/AiMovement.cs:221-239 | The fields become ChaseStart of the old fields. |
| `AIMovement.AIMovement.TransitionToSearching` | Assets/Scripts/AiMovement.cs:241-246 | The fields become SearchStart of the old fields. |
| `AIMovement.AIMovement.WaitAtPatrolPoint` | Assets/Scripts/AiMovement.cs:286-289 | The fields become StartWait of the old fields at the frame time. |
| `AIMovement.AIMovement.ResumeSearchTask` | Assets/Scripts/AiMovement.cs:248-284 | The fields become SearchResumed of the old fields. |
| `AIMovement.AIMovement.ResumeWaits` | Assets/Scripts/AiMovement.cs:289-291 | The fields become WaitsResumed of the old fields, and the AI stays consistent. |
| `AIMovement.AIMovement.ResumeDueWaits` | Assets/Scripts/AiMovement.cs:289-291 | Resumes the waits in start order: it returns Pending of the waits, and the fields become MoveNextTimes of the old fields, with one move per finished wait. |

Notes for rows too long to fit in a table cell:

- **`MazeSpawn.FindSpawn`**
  - The 2x2 scan covers only 1 <= x <= w - 2 and 1 <= y <= h - 2, so its right and upper neighbours are in range.
  - The spawn is the first 2x2 clear cell in x-outer, y-inner order, placed at (x*cs + cs, 0.08, y*cs + cs).
  - Only when no cell passes that test does the single-cell scan run. It takes the first open cell over the whole grid and spawns at its centre.
  - The default (cs, 0.08, cs) is used only when both scans fail.
- **`MazeRenderer.PlaceCells`**
  - Cell (x, y) sits at (x*cs, 0, y*cs).
  - Its top and left flags are the stored ones.
  - Its right wall shows exactly in the last column, and its bottom wall exactly in the first row.
- **`VisionCone.EnemyVisionCone.FindVisibleTargets`**
  - The target is in sight exactly when some candidate passes both tests.
  - The target and its last known position are those of the last passing candidate.
  - When no candidate passes, the target is cleared and the last known position is kept from earlier frames.
- **`Flashlight.FlashlightDetector.Update`**
  - With the light off, every lit monster is switched off, the lit set is emptied, and exactly those monsters are recorded as unlit.
  - With the light on, the lit set becomes exactly LitBy of the frame's ray plan.
  - The record's keys grow by exactly the newly lit monsters, and every entry ends equal to that monster's flag.
- **`AIMovement.NextState`**
  - A sighted target always means chasing.
  - Without one, a chase becomes a search, and a patrol becomes a wait exactly when it reached its point (it stays patrolling otherwise).
  - Searching and waiting persist.
  - Patrolling comes only from patrolling.
- **`AIMovement.ResumeSearch`**
  - The search finishes only at a loop head with searchTime >= searchDuration.
  - searchTime never decreases. It grows only when a point is done, by at least the 1 s turning time and, with frames of at most maxDeltaTime, by less than 2 + 1 + 2*maxDeltaTime.
  - A point whose path query fails adds nothing, and a new path is handed to the agent only at a loop head.
  - No resumption accounts for more than the frame's time, and the counters' bounds are preserved.
- **`AIMovement.WaitsResumed`** (the pending waits resumed at time now):
  - the waits left are Pending of the old ones;
  - with k of them finished and a non-empty route, the index is IndexAfter k moves from the old index, and the destination is the point of the last move;
  - with none finished, or no route, the index and the agent are unchanged;
  - the state and every other field are unchanged, so a wait never returns the enemy to patrolling;
  - consistency is kept.
- **`AIMovement.Moved`** (UpdateMovement):
  - while lit, nothing changes;
  - otherwise the agent is started at StateSpeed of the state;
  - outside a chase, the wall check runs when more than wallAvoidanceCheckInterval has passed since the last one, and records the time;
  - a detour found then becomes the destination, at 0.8 times the speed;
  - only isStopped, speed, destination and the check time change, and consistency is kept.
- **`AIMovement.ChaseStart`** (TransitionToChasing):
  - it leaves the enemy chasing, and nothing changes when already chasing;
  - otherwise it sets the chase speed, doubles acceleration and angular speed, sets stopping distance 0.5, cancels the search, resets lastPathUpdate to 0, and heads for the sighted position;
  - nothing else changes, and consistency is kept.
- **`AIMovement.SearchStart`** (TransitionToSearching, with the coroutine run to its first yield):
  - it leaves the enemy searching at search speed, with the search clock at 0;
  - the search task is one ResumeSearch step from the loop head;
  - with a path to the search point, the agent heads for that point (lastKnownPlayerPos plus the scaled offset, at the enemy's height), and the point is being worked on;
  - without a path, the destination is kept and the search task waits at its loop head;
  - nothing else changes, and with a frame within maxDeltaTime consistency is kept.
- **`AIMovement.Chased`** (HandleChaseState with the target in sight):
  - the last known position becomes the target's;
  - when more than pathUpdateInterval has passed, the throttle time becomes now and the prediction is recomputed as Predict of the target against itself;
  - the destination becomes the prediction exactly then, and only when it is within minChaseDistance;
  - nothing else changes.
- **`AIMovement.Handled`** (the state switch):
  - the state becomes NextState of the old one;
  - outside a chase, a sighting is ChaseStart, a patrol that reached its point is StartWait at the frame time, and otherwise nothing changes;
  - a chase is Chased while sighted and SearchStart once the target is lost;
  - consistency is kept.
- **`AIMovement.Updated`** (Moved, then Handled):
  - the state becomes NextState of the old one;
  - the patrol index and the light are untouched;
  - a wait is added exactly when a patrol reaches its point unseen;
  - the last known position changes only during a sighted chase, to the target's position;
  - a search still running is left as it was;
  - a chase that starts cancels the search and heads for the target at chase speed;
  - consistency is kept.
- **`AIMovement.SearchResumed`** (one frame of the search coroutine):
  - when the step finishes, the enemy patrols at patrol speed with no search, and the patrol fields are one MoveNext on;
  - when it yields, the search task's new locals are kept, and the destination becomes the yielded path if there is one;
  - nothing else changes, and consistency is kept.
- **`AIMovement.Stepped`** (Updated, then the search that was already running, then the pending waits):
  - consistency is kept;
  - a sighted target always ends the frame chasing;
  - the state is NextState of the old one, or a finished search returned it to patrolling, and patrolling comes only from patrolling or searching;
  - the light is unchanged, and a lit enemy's agent is stopped;
  - the last known position changes only during a sighted chase;
  - the waits left are Pending of the old ones plus any wait started this frame.

## Left out

- Floating point: all float arithmetic is real arithmetic, and float rounding is not modelled. `Vector3.Distance(a, b) <= d` is compared as a squared distance against `d * d`, which over the reals is the same test.
- Geometry and engine queries:
  - vector angles, quaternion ray directions, the wall-avoidance steering vector (Assets/Scripts/AiMovement.cs:130-135);
  - NavMesh path, sample and remaining-distance queries;
  - physics ray and overlap queries.

  These are inputs, as described above.
- Audio: `UpdateAudio` and `PlayRandomGrowls` (Assets/Scripts/AiMovement.cs:144-162, 310-321), hit sound and camera shake (Assets/Scripts/PlayerHealth.cs:87-106). These are effects with no bearing on game state.
- `InitializePatrolPoints` (Assets/Scripts/AiMovement.cs:323-337): the patrol route is a constructor argument, possibly empty (the source's null list behaves the same way). The `PatrolRoutes` member it reads is not part of this model.
- Game over: the `GameOverManager` lookup and `TriggerGameOver` are reduced to the boolean the health methods return.
- Cell objects: `MazeCellObject.Init` is represented by the four flags passed to it. Instantiation, colliders and NavMesh surface building are not modelled.
- MazeCell is a class the generator mutates in place. The model stores value cells in the `array2`; no other code holds references to cells during carving, so no aliasing is lost.
- Destroyed monsters: the flashlight's null checks on monsters (Assets/Scripts/FlashLightDetector.cs:127, 139) always pass, because monsters are never destroyed in the model.
- Monsters as ids:
  - the flashlight's `IsInLight` writes go to an array of flags indexed by monster id;
  - the effect of those writes on each enemy's agent is modelled separately by `AIMovement.AIMovement.SetInLight`;
  - the two modules are not composed.
- Coroutines:
  - Unity's scheduler is modelled as "Update, then resume the search if it was already running, then the pending waits in start order";
  - `StopCoroutine` is modelled by dropping the search task;
  - a search started in a frame runs to its first yield in that frame.
- `AIMovement.AIMovement.Tick`: one `reached` answer per frame serves `Update`, the search start and the search resumption alike. Within a frame, the source queries `remainingDistance` afresh after `SetPath`.
- Frames without time: frames are taken to last a positive time of at most `maxDeltaTime`. Game over sets `Time.timeScale` to 0 (Assets/Scripts/GameOverManager.cs:43, Assets/Scripts/GameOver.cs:58), so later frames have zero delta time. `PredictTargetPosition` then divides by zero (Assets/Scripts/AiMovement.cs:105). Such frames are not modelled.
- Configuration: the serialized inspector fields are constants fixed at their default values. The proofs cover the default configuration only. These fields are `maxHealth` and `invincibilityDuration` (PlayerHealth), `viewRadius` and `viewAngle` (AIVisionCone), and the speeds, times, radii and intervals of AiMovement.
- `MazeGenerator.MazeGenerator.CarvePath`, `MazeGenerator.MazeGenerator.GetMaze`: carving requires `StartFits`, so neither the out-of-range write of a start on the row just above the grid nor the uncarved grid a higher start returns is modelled as a run. The two start-row lemmas state where each case goes.
- `PlayerHealth.Tick` requires a frame time that is not negative.
