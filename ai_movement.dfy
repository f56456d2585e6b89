/** The enemy's behaviour (Assets/Scripts/AiMovement.cs): a four-state
    machine driven once per frame by Update, with two coroutines (the search
    around the last known player position, and the pause at a patrol point)
    written out as explicit tasks that each frame resumes after Update.
    Everything the engine answers (sight, "reached destination", path
    queries, NavMesh sampling, the wall check, time and delta time) arrives
    in a Frame; the NavMeshAgent is reduced to the fields the script writes. */
module AIMovement {
  import opened Engine

  /** Serialized defaults of the component. */
  const BasePatrolSpeed: real := 2.0
  const BaseChaseSpeed: real := 5.0
  const BaseSearchSpeed: real := 3.5
  const RotationSpeed: real := 180.0
  const AccelerationRate: real := 2.0
  const WaitTimeAtPatrolPoint: real := 2.0
  const SearchDuration: real := 8.0
  const SearchAreaRadius: real := 5.0
  const WallAvoidanceCheckInterval: real := 0.5
  const MinChaseDistance: real := 30.0
  const PathUpdateInterval: real := 0.2
  const PredictionMultiplier: real := 0.8

  /** Literals of the search coroutine: how long to head for one search
      point, and how long to turn on the spot there. */
  const SearchPointTimeout: real := 2.0
  const LookAroundTime: real := 1.0
  /** Stopping distance set when a chase starts. */
  const ChaseStoppingDistance: real := 0.5
  /** Speed factor applied when a wall detour is taken. */
  const DetourSlowdown: real := 0.8

  datatype AIState = Patrolling | Chasing | Searching | WaitingAtPatrol

  /** The NavMeshAgent fields the script writes; `destination` is the last
      target handed to SetDestination or SetPath. */
  datatype Agent = Agent(isStopped: bool, speed: real, acceleration: real, angularSpeed: real,
                         stoppingDistance: real, destination: Option<Vec3>)

  /** What the engine answers during one frame: the clock, the enemy's
      position, whether the agent has reached its destination, what the
      vision cone reports, the detour target when the wall check finds a
      wall and a complete path around it, NavMesh.SamplePosition, the random
      offset of a new search point and whether a path to it exists. */
  datatype Frame = Frame(time: real, deltaTime: real, position: Vec3, reached: bool,
                         targetInSight: bool, targetPosition: Vec3, detour: Option<Vec3>,
                         sample: Vec3 -> Option<Vec3>, searchOffset: Vec3, pathFound: bool)

  /** GetCurrentStateSpeed: chasing is fastest, searching in between, and
      patrolling or waiting slowest. */
  function StateSpeed(state: AIState): (speed: real)
    ensures BasePatrolSpeed <= speed <= BaseChaseSpeed
    ensures speed == BaseChaseSpeed <==> state == Chasing
    ensures speed == BaseSearchSpeed <==> state == Searching
    ensures speed == BasePatrolSpeed <==> state == Patrolling || state == WaitingAtPatrol
  {
    match state
    case Chasing => BaseChaseSpeed
    case Searching => BaseSearchSpeed
    case _ => BasePatrolSpeed
  }


  /** The state Update leaves behind. A sighted target always starts or
      continues a chase; without one a chase turns into a search, a patrol
      turns into a wait exactly when the point is reached, searching and
      waiting persist, and Update itself never returns to patrolling. */
  function NextState(state: AIState, targetInSight: bool, reached: bool): (next: AIState)
    ensures targetInSight ==> next == Chasing
    ensures !targetInSight && state == Chasing ==> next == Searching
    ensures !targetInSight && state == Patrolling ==> next == (if reached then WaitingAtPatrol else Patrolling)
    ensures !targetInSight && (state == Searching || state == WaitingAtPatrol) ==> next == state
    ensures next == Patrolling ==> state == Patrolling
  {
    match state
    case Patrolling => if targetInSight then Chasing else if reached then WaitingAtPatrol else Patrolling
    case Chasing => if targetInSight then Chasing else Searching
    case Searching => if targetInSight then Chasing else Searching
    case WaitingAtPatrol => if targetInSight then Chasing else WaitingAtPatrol
  }


  /** PredictTargetPosition: extrapolate the target's motion over one frame,
      then snap to the NavMesh, or fall back to the last known position when
      sampling fails. When the last known position has just been set to the
      target's position, the velocity is zero and the extrapolation is the
      target's position itself. */
  function Predict(target: Vec3, lastKnown: Vec3, deltaTime: real, sample: Vec3 -> Option<Vec3>): (p: Vec3)
    requires deltaTime != 0.0
    ensures target == lastKnown ==> p == (if sample(target).Some? then sample(target).value else target)
    ensures sample(Add(target, Scale(Sub(target, lastKnown), PredictionMultiplier / deltaTime))).None? ==> p == lastKnown
  {
    var velocity := Scale(Sub(target, lastKnown), 1.0 / deltaTime);
    var predicted := Add(target, Scale(velocity, PredictionMultiplier));
    assert Scale(velocity, PredictionMultiplier) == Scale(Sub(target, lastKnown), PredictionMultiplier / deltaTime);
    match sample(predicted)
    case Some(hit) => hit
    case None => lastKnown
  }

  /** The slot MoveToNextPatrolPoint targets: the index wraps to 0 once it
      has run past the last point. */
  function PatrolSlot(index: int, count: nat): (slot: int)
    requires count > 0 && 0 <= index
    ensures 0 <= slot < count
    ensures index < count ==> slot == index
  {
    if index >= count then 0 else index
  }


  /** The patrol index after a number of MoveToNextPatrolPoint calls from
      index start. */
  function IndexAfter(start: int, count: nat, moves: nat): (index: int)
    requires count > 0 && 0 <= start
    ensures moves == 0 ==> index == start
    ensures moves > 0 ==> 1 <= index <= count
  {
    if moves == 0 then start else PatrolSlot(IndexAfter(start, count, moves - 1), count) + 1
  }

  /** Moves compose: a moves then b moves are a + b moves. */
  lemma {:induction false} IndexAfterSplit(start: int, count: nat, a: nat, b: nat)
    requires count > 0 && 0 <= start
    ensures IndexAfter(start, count, a + b) == IndexAfter(IndexAfter(start, count, a), count, b)
  {
    if b > 0 {
      IndexAfterSplit(start, count, a, b - 1);
      assert a + b - 1 == a + (b - 1);
    }
  }

  /** Until the end of the route, each move visits the next patrol point. */
  lemma {:induction false} PatrolInOrder(start: int, count: nat, moves: nat)
    requires count > 0 && 0 <= start && start + moves <= count
    ensures IndexAfter(start, count, moves) == start + moves
  {
    if moves > 0 {
      PatrolInOrder(start, count, moves - 1);
    }
  }

  /** From the initial index 0 the moves repeat with period count after the
      first one: the route is walked as a cycle. */
  lemma {:induction false} PatrolPeriodic(count: nat, moves: nat)
    requires count > 0 && moves >= 1
    ensures IndexAfter(0, count, moves + count) == IndexAfter(0, count, moves)
  {
    if moves == 1 {
      PatrolInOrder(0, count, count);
      PatrolInOrder(0, count, 1);
    } else {
      PatrolPeriodic(count, moves - 1);
      assert moves + count - 1 == (moves - 1) + count;
    }
  }


  /** Where the search coroutine is suspended: heading for a search point
      (waiting for the agent to arrive or for the timeout), turning on the
      spot, or at the end of a loop round. */
  datatype Stage = Seeking(timeout: real) | LookingAround(timeout: real, rotationTime: real) | BetweenPoints

  /** The search coroutine's locals. */
  datatype SearchTask = SearchTask(searchTime: real, stage: Stage)

  /** What a resumption does: yield again (maybe after handing the agent a
      path to a new search point), or run to completion. */
  datatype Resumed = Yielded(task: SearchTask, newPath: Option<Vec3>) | Finished

  /** The frame time the search task has accounted for: what it has added to
      searchTime plus what it has counted on the current point. */
  function Charged(t: SearchTask): real {
    t.searchTime +
    match t.stage
    case Seeking(timeout) => timeout
    case LookingAround(timeout, rotationTime) => timeout + rotationTime
    case BetweenPoints => 0.0
  }

  /** The counters of the current point are never negative. */
  predicate Nonnegative(t: SearchTask) {
    match t.stage
    case Seeking(timeout) => 0.0 <= timeout
    case LookingAround(timeout, rotationTime) => 0.0 <= timeout && 0.0 <= rotationTime
    case BetweenPoints => true
  }

  /** The bounds the coroutine keeps when no frame is longer than
      maxDeltaTime: each counter overshoots its limit by less than a frame,
      and searchTime exceeds the duration by less than one search point. */
  predicate Bounded(t: SearchTask, maxDeltaTime: real) {
    0.0 <= t.searchTime &&
    match t.stage
    case Seeking(timeout) =>
      t.searchTime < SearchDuration && 0.0 < timeout < SearchPointTimeout + maxDeltaTime
    case LookingAround(timeout, rotationTime) =>
      t.searchTime < SearchDuration && 0.0 <= timeout < SearchPointTimeout + maxDeltaTime &&
      0.0 < rotationTime < LookAroundTime + maxDeltaTime
    case BetweenPoints =>
      t.searchTime < SearchDuration + SearchPointTimeout + LookAroundTime + 2.0 * maxDeltaTime
  }

  /** The turning loop after the agent has arrived or timed out. */
  function LookAround(searchTime: real, timeout: real, rotationTime: real, deltaTime: real): Resumed {
    if rotationTime < LookAroundTime then Yielded(SearchTask(searchTime, LookingAround(timeout, rotationTime + deltaTime)), None)
    else Yielded(SearchTask(searchTime + timeout + rotationTime, BetweenPoints), None)
  }

  /** The waiting loop for one search point. */
  function Approach(searchTime: real, timeout: real, reached: bool, deltaTime: real): Resumed {
    if !reached && timeout < SearchPointTimeout then Yielded(SearchTask(searchTime, Seeking(timeout + deltaTime)), None)
    else LookAround(searchTime, timeout, 0.0, deltaTime)
  }

  /** The head of the outer loop: finish once searchTime has reached the
      duration; otherwise try a new point, which counts only if a path to it
      exists. */
  function BeginPoint(searchTime: real, reached: bool, path: Option<Vec3>, deltaTime: real): Resumed {
    if searchTime < SearchDuration then
      match path
      case Some(point) =>
        var r := Approach(searchTime, 0.0, reached, deltaTime);
        Yielded(r.task, Some(point))
      case None => Yielded(SearchTask(searchTime, BetweenPoints), None)
    else Finished
  }

  /** Resumes the search coroutine for one frame. It finishes only at a loop
      head with searchTime at least the duration; searchTime only grows, and
      only when a point is done, by at least the turning time; a point
      without a path adds nothing; and no resumption accounts for more than
      the frame's time. */
  function ResumeSearch(task: SearchTask, reached: bool, path: Option<Vec3>, deltaTime: real): (r: Resumed)
    requires deltaTime > 0.0 && Nonnegative(task)
    ensures r.Yielded? ==> Nonnegative(r.task)
    ensures r.Finished? ==> task.stage.BetweenPoints? && task.searchTime >= SearchDuration
    ensures r.Yielded? ==> task.searchTime <= r.task.searchTime
    ensures r.Yielded? && r.task.searchTime != task.searchTime ==>
      task.stage.LookingAround? && r.task.stage.BetweenPoints? &&
      r.task.searchTime - task.searchTime >= LookAroundTime
    ensures r.Yielded? && r.newPath.Some? ==> task.stage.BetweenPoints? && path == r.newPath
    ensures task.stage.BetweenPoints? && task.searchTime < SearchDuration && path.None? ==>
      r == Yielded(task, None)
    ensures r.Yielded? ==> Charged(r.task) <= Charged(task) + deltaTime
    ensures forall maxDeltaTime :: deltaTime <= maxDeltaTime && Bounded(task, maxDeltaTime) && r.Yielded? ==>
      Bounded(r.task, maxDeltaTime) &&
      r.task.searchTime - task.searchTime < SearchPointTimeout + LookAroundTime + 2.0 * maxDeltaTime
  {
    match task.stage
    case Seeking(timeout) => Approach(task.searchTime, timeout, reached, deltaTime)
    case LookingAround(timeout, rotationTime) => LookAround(task.searchTime, timeout, rotationTime, deltaTime)
    case BetweenPoints => BeginPoint(task.searchTime, reached, path, deltaTime)
  }

  /** The coroutine's answers over several frames. */
  datatype SearchFrame = SearchFrame(reached: bool, path: Option<Vec3>, deltaTime: real)

  predicate Positive(frames: seq<SearchFrame>) {
    forall k :: 0 <= k < |frames| ==> frames[k].deltaTime > 0.0
  }

  function Elapsed(frames: seq<SearchFrame>): (e: real)
    ensures Positive(frames) ==> e >= 0.0
  {
    if frames == [] then 0.0 else frames[0].deltaTime + Elapsed(frames[1..])
  }

  /** Resumes the search task once per frame until it finishes. */
  function RunSearch(task: SearchTask, frames: seq<SearchFrame>): Resumed
    requires Positive(frames) && Nonnegative(task)
    decreases frames
  {
    if frames == [] then Yielded(task, None)
    else
      match ResumeSearch(task, frames[0].reached, frames[0].path, frames[0].deltaTime)
      case Finished => Finished
      case Yielded(next, _) => RunSearch(next, frames[1..])
  }

  /** A search lasts at least SearchDuration of frame time: searchTime only
      accumulates the delta times of the frames it runs in. */
  lemma {:induction false} SearchTakesTime(task: SearchTask, frames: seq<SearchFrame>)
    requires Positive(frames) && Nonnegative(task)
    requires RunSearch(task, frames).Finished?
    ensures Charged(task) + Elapsed(frames) >= SearchDuration
    decreases frames
  {
    var r := ResumeSearch(task, frames[0].reached, frames[0].path, frames[0].deltaTime);
    if r.Yielded? {
      SearchTakesTime(r.task, frames[1..]);
    }
  }

  /** The search point: a random offset around the last known player
      position, at the enemy's own height. */
  function SearchPoint(lastKnown: Vec3, offset: Vec3, position: Vec3): Vec3 {
    Vec3(lastKnown.x + offset.x * SearchAreaRadius, position.y, lastKnown.z + offset.z * SearchAreaRadius)
  }

  /** The component's variable state, field for field. */
  datatype Brain = Brain(agent: Agent, currentState: AIState, currentPatrolIndex: int,
                         lastKnownPlayerPos: Vec3, predictedPlayerPos: Vec3, isInLight: bool,
                         search: Option<SearchTask>, waits: seq<real>,
                         lastWallCheck: real, lastPathUpdate: real)

  /** What stays fixed: the patrol route, and the longest frame. */
  datatype Setup = Setup(patrolPoints: seq<Vec3>, maxDeltaTime: real)

  /** The patrol index stays within the route; a search runs exactly while
      searching, within its bounds; a lit enemy's agent is stopped. */
  predicate Consistent(b: Brain, cfg: Setup) {
    cfg.maxDeltaTime > 0.0 &&
    0 <= b.currentPatrolIndex <= |cfg.patrolPoints| &&
    (b.search.Some? <==> b.currentState == Searching) &&
    (b.search.Some? ==> Nonnegative(b.search.value) && Bounded(b.search.value, cfg.maxDeltaTime)) &&
    (b.isInLight ==> b.agent.isStopped)
  }

  predicate FrameFits(f: Frame, cfg: Setup) {
    0.0 < f.deltaTime <= cfg.maxDeltaTime
  }

  /** The path a new search point yields, when one exists. */
  function SearchPath(lastKnown: Vec3, f: Frame): Option<Vec3> {
    if f.pathFound then Some(SearchPoint(lastKnown, f.searchOffset, f.position)) else None
  }

  /** MoveToNextPatrolPoint: nothing without a route; otherwise head for the
      slot the index names (wrapped to 0 past the end) and advance, so the
      new index is one move on and the destination is the point just left
      behind the index. Nothing else changes. */
  function MoveNext(b: Brain, cfg: Setup): (r: Brain)
    requires 0 <= b.currentPatrolIndex
    ensures |cfg.patrolPoints| == 0 ==> r == b
    ensures |cfg.patrolPoints| > 0 ==>
      r.currentPatrolIndex == IndexAfter(b.currentPatrolIndex, |cfg.patrolPoints|, 1) &&
      r.agent == b.agent.(destination := Some(cfg.patrolPoints[r.currentPatrolIndex - 1]))
    ensures r == b.(currentPatrolIndex := r.currentPatrolIndex, agent := r.agent)
    ensures Consistent(b, cfg) ==> Consistent(r, cfg)
  {
    if |cfg.patrolPoints| == 0 then b
    else
      var slot := PatrolSlot(b.currentPatrolIndex, |cfg.patrolPoints|);
      b.(agent := b.agent.(destination := Some(cfg.patrolPoints[slot])), currentPatrolIndex := slot + 1)
  }

  /** k moves in a row: the index is IndexAfter k moves, and the destination
      is the point of the last move. */
  function MoveNextTimes(b: Brain, cfg: Setup, k: nat): (r: Brain)
    requires 0 <= b.currentPatrolIndex
    ensures 0 <= r.currentPatrolIndex
    ensures |cfg.patrolPoints| == 0 || k == 0 ==> r == b
    ensures |cfg.patrolPoints| > 0 && k > 0 ==>
      r.currentPatrolIndex == IndexAfter(b.currentPatrolIndex, |cfg.patrolPoints|, k) &&
      r.agent == b.agent.(destination := Some(cfg.patrolPoints[r.currentPatrolIndex - 1]))
    ensures r == b.(currentPatrolIndex := r.currentPatrolIndex, agent := r.agent)
    ensures Consistent(b, cfg) ==> Consistent(r, cfg)
  {
    if k == 0 then b else MoveNext(MoveNextTimes(b, cfg, k - 1), cfg)
  }

  /** The pending waits resumed at time now: the ones whose time is up are
      dropped, and each of them moves on to the next patrol point, so k
      finished waits are k moves. The state is left alone: a wait never
      returns the enemy to patrolling. */
  function WaitsResumed(b: Brain, now: real, cfg: Setup): (r: Brain)
    requires 0 <= b.currentPatrolIndex
    ensures r.waits == Pending(b.waits, now)
    ensures r == b.(currentPatrolIndex := r.currentPatrolIndex, agent := r.agent, waits := r.waits)
    ensures var k := |b.waits| - |Pending(b.waits, now)|;
      (|cfg.patrolPoints| == 0 || k == 0 ==>
         r.currentPatrolIndex == b.currentPatrolIndex && r.agent == b.agent) &&
      (|cfg.patrolPoints| > 0 && k > 0 ==>
         r.currentPatrolIndex == IndexAfter(b.currentPatrolIndex, |cfg.patrolPoints|, k) &&
         r.agent == b.agent.(destination := Some(cfg.patrolPoints[r.currentPatrolIndex - 1])))
    ensures Consistent(b, cfg) ==> Consistent(r, cfg)
  {
    MoveNextTimes(b, cfg, |b.waits| - |Pending(b.waits, now)|).(waits := Pending(b.waits, now))
  }

  /** UpdateMovement: while lit, nothing changes. Otherwise the agent runs at
      the state's speed, and outside a chase a wall check at most every
      WallAvoidanceCheckInterval may send it on a slower detour. Only the
      agent's isStopped, speed and destination and the check time change. */
  function Moved(b: Brain, f: Frame): (r: Brain)
    ensures b.isInLight ==> r == b
    ensures !b.isInLight ==>
      var check := b.currentState != Chasing && f.time - b.lastWallCheck > WallAvoidanceCheckInterval;
      var detour := check && f.detour.Some?;
      !r.agent.isStopped &&
      r.agent.speed == (if detour then StateSpeed(b.currentState) * DetourSlowdown else StateSpeed(b.currentState)) &&
      r.agent.destination == (if detour then f.detour else b.agent.destination) &&
      r.lastWallCheck == (if check then f.time else b.lastWallCheck)
    ensures r == b.(agent := b.agent.(isStopped := r.agent.isStopped, speed := r.agent.speed,
                                      destination := r.agent.destination),
                    lastWallCheck := r.lastWallCheck)
    ensures forall cfg :: Consistent(b, cfg) ==> Consistent(r, cfg)
  {
    if b.isInLight then b
    else
      var moving := b.agent.(isStopped := false, speed := StateSpeed(b.currentState));
      if b.currentState != Chasing && f.time - b.lastWallCheck > WallAvoidanceCheckInterval then
        if f.detour.Some? then
          b.(agent := moving.(destination := f.detour, speed := moving.speed * DetourSlowdown), lastWallCheck := f.time)
        else b.(agent := moving, lastWallCheck := f.time)
      else b.(agent := moving)
  }

  /** TransitionToChasing: a no-op when already chasing. Otherwise chase at
      full speed with doubled acceleration and turning and a short stopping
      distance, heading for the target, with the search cancelled and the
      path throttle reset. */
  function ChaseStart(b: Brain, target: Vec3): (r: Brain)
    ensures r.currentState == Chasing
    ensures b.currentState == Chasing ==> r == b
    ensures b.currentState != Chasing ==>
      r.search.None? && r.lastPathUpdate == 0.0 &&
      r.agent == b.agent.(speed := StateSpeed(Chasing), acceleration := AccelerationRate * 2.0,
                          angularSpeed := RotationSpeed * 2.0, stoppingDistance := ChaseStoppingDistance,
                          destination := Some(target))
    ensures r == b.(currentState := Chasing, search := r.search, lastPathUpdate := r.lastPathUpdate, agent := r.agent)
    ensures forall cfg :: Consistent(b, cfg) ==> Consistent(r, cfg)
  {
    if b.currentState == Chasing then b
    else
      var fast := b.agent.(speed := BaseChaseSpeed, acceleration := AccelerationRate * 2.0,
                           angularSpeed := RotationSpeed * 2.0, stoppingDistance := ChaseStoppingDistance);
      b.(currentState := Chasing, agent := fast.(destination := Some(target)), search := None, lastPathUpdate := 0.0)
  }

  /** TransitionToSearching: search at search speed, with the coroutine run
      at once up to its first yield. That first step starts the search clock
      at zero; with a path to a search point the agent heads there and the
      point is being worked on, without one the agent keeps its destination
      and the coroutine waits at its loop head. */
  function SearchStart(b: Brain, f: Frame): (r: Brain)
    requires f.deltaTime > 0.0
    ensures r.currentState == Searching && r.search.Some? && r.search.value.searchTime == 0.0
    ensures r.search.value ==
      ResumeSearch(SearchTask(0.0, BetweenPoints), f.reached, SearchPath(b.lastKnownPlayerPos, f), f.deltaTime).task
    ensures f.pathFound ==>
      r.agent.destination == Some(SearchPoint(b.lastKnownPlayerPos, f.searchOffset, f.position)) &&
      !r.search.value.stage.BetweenPoints?
    ensures !f.pathFound ==> r.agent.destination == b.agent.destination && r.search.value.stage.BetweenPoints?
    ensures r == b.(currentState := Searching, search := r.search,
                    agent := b.agent.(speed := StateSpeed(Searching), destination := r.agent.destination))
    ensures forall cfg :: Consistent(b, cfg) && FrameFits(f, cfg) ==> Consistent(r, cfg)
  {
    var first := BeginPoint(0.0, f.reached, SearchPath(b.lastKnownPlayerPos, f), f.deltaTime);
    assert ResumeSearch(SearchTask(0.0, BetweenPoints), f.reached, SearchPath(b.lastKnownPlayerPos, f), f.deltaTime) == first;
    var slower := b.agent.(speed := BaseSearchSpeed);
    b.(currentState := Searching, search := Some(first.task),
       agent := if first.newPath.Some? then slower.(destination := first.newPath) else slower)
  }

  /** The chase with the target in sight: remember where it is, and at most
      once per PathUpdateInterval predict its position and re-aim there if
      that lies within MinChaseDistance. */
  function Chased(b: Brain, f: Frame): (r: Brain)
    requires f.deltaTime != 0.0
    ensures var update := f.time - b.lastPathUpdate > PathUpdateInterval;
      var predicted := Predict(f.targetPosition, f.targetPosition, f.deltaTime, f.sample);
      r.lastKnownPlayerPos == f.targetPosition &&
      r.lastPathUpdate == (if update then f.time else b.lastPathUpdate) &&
      r.predictedPlayerPos == (if update then predicted else b.predictedPlayerPos) &&
      r.agent.destination == (if update && SqrDistance(f.position, predicted) <= MinChaseDistance * MinChaseDistance
                              then Some(predicted) else b.agent.destination)
    ensures r == b.(lastKnownPlayerPos := r.lastKnownPlayerPos, lastPathUpdate := r.lastPathUpdate,
                    predictedPlayerPos := r.predictedPlayerPos, agent := b.agent.(destination := r.agent.destination))
  {
    var seen := b.(lastKnownPlayerPos := f.targetPosition);
    if f.time - seen.lastPathUpdate > PathUpdateInterval then
      var predicted := Predict(f.targetPosition, seen.lastKnownPlayerPos, f.deltaTime, f.sample);
      var aimed := seen.(lastPathUpdate := f.time, predictedPlayerPos := predicted);
      // Vector3.Distance(a, b) <= minChaseDistance, squared on both sides
      if SqrDistance(f.position, predicted) <= MinChaseDistance * MinChaseDistance
      then aimed.(agent := aimed.agent.(destination := Some(predicted)))
      else aimed
    else seen
  }

  /** WaitAtPatrolPoint up to its yield: the enemy waits, and a wait starts
      now. */
  function StartWait(b: Brain, now: real): (r: Brain)
    ensures r.currentState == WaitingAtPatrol && r.waits == b.waits + [now]
    ensures r == b.(currentState := WaitingAtPatrol, waits := r.waits)
    ensures forall cfg :: Consistent(b, cfg) && b.currentState != Searching ==> Consistent(r, cfg)
  {
    b.(currentState := WaitingAtPatrol, waits := b.waits + [now])
  }

  /** The state handlers. Outside a chase a sighted target starts one, a
      patrol that reached its point starts a wait, and otherwise nothing
      changes; a chase follows a sighted target and turns into a search once
      it is lost. */
  function Handled(b: Brain, f: Frame): (r: Brain)
    requires f.deltaTime > 0.0
    ensures r.currentState == NextState(b.currentState, f.targetInSight, f.reached)
    ensures b.currentState != Chasing && f.targetInSight ==> r == ChaseStart(b, f.targetPosition)
    ensures b.currentState == Patrolling && !f.targetInSight && f.reached ==> r == StartWait(b, f.time)
    ensures b.currentState != Chasing && !f.targetInSight && !(b.currentState == Patrolling && f.reached) ==> r == b
    ensures b.currentState == Chasing ==> r == if f.targetInSight then Chased(b, f) else SearchStart(b, f)
    ensures forall cfg :: Consistent(b, cfg) && FrameFits(f, cfg) ==> Consistent(r, cfg)
  {
    match b.currentState
    case Patrolling =>
      if f.targetInSight then ChaseStart(b, f.targetPosition)
      else if f.reached then StartWait(b, f.time)
      else b
    case Chasing => if f.targetInSight then Chased(b, f) else SearchStart(b, f)
    case Searching => if f.targetInSight then ChaseStart(b, f.targetPosition) else b
    case WaitingAtPatrol => if f.targetInSight then ChaseStart(b, f.targetPosition) else b
  }

  /** Update: movement bookkeeping, then the handler of the state the frame
      starts in. It never touches the patrol index or the light, keeps a
      running search running unless a chase starts, records a new wait
      exactly when a patrol reaches its point, and remembers the target's
      position only during a chase. */
  function Updated(b: Brain, f: Frame): (r: Brain)
    requires f.deltaTime > 0.0
    ensures r.currentState == NextState(b.currentState, f.targetInSight, f.reached)
    ensures r.currentPatrolIndex == b.currentPatrolIndex && r.isInLight == b.isInLight
    ensures r.waits == b.waits + (if b.currentState == Patrolling && !f.targetInSight && f.reached then [f.time] else [])
    ensures r.lastKnownPlayerPos ==
      (if b.currentState == Chasing && f.targetInSight then f.targetPosition else b.lastKnownPlayerPos)
    ensures b.currentState == Searching && r.currentState == Searching ==> r.search == b.search
    ensures f.targetInSight && b.currentState != Chasing ==>
      r.search.None? && r.agent.speed == BaseChaseSpeed && r.agent.destination == Some(f.targetPosition)
    ensures forall cfg :: Consistent(b, cfg) && FrameFits(f, cfg) ==> Consistent(r, cfg)
  {
    Handled(Moved(b, f), f)
  }

  /** The search coroutine resumed for one frame. When it finishes, the enemy
      patrols again at patrol speed, one move further along the route;
      otherwise it keeps the search task's new locals and, if the search task yielded a
      path, heads there. */
  function SearchResumed(b: Brain, f: Frame, cfg: Setup): (r: Brain)
    requires b.search.Some? && Nonnegative(b.search.value) && f.deltaTime > 0.0 && 0 <= b.currentPatrolIndex
    ensures var step := ResumeSearch(b.search.value, f.reached, SearchPath(b.lastKnownPlayerPos, f), f.deltaTime);
      step.Finished? ==>
        var points := cfg.patrolPoints;
        var index := if |points| > 0 then IndexAfter(b.currentPatrolIndex, |points|, 1) else b.currentPatrolIndex;
        r == b.(currentState := Patrolling, search := None, currentPatrolIndex := index,
                agent := b.agent.(speed := StateSpeed(Patrolling),
                                  destination := if |points| > 0 then Some(points[index - 1]) else b.agent.destination))
    ensures var step := ResumeSearch(b.search.value, f.reached, SearchPath(b.lastKnownPlayerPos, f), f.deltaTime);
      step.Yielded? ==>
        r == b.(search := Some(step.task),
                agent := b.agent.(destination := if step.newPath.Some? then step.newPath else b.agent.destination))
    ensures Consistent(b, cfg) && FrameFits(f, cfg) ==> Consistent(r, cfg)
  {
    match ResumeSearch(b.search.value, f.reached, SearchPath(b.lastKnownPlayerPos, f), f.deltaTime)
    case Finished =>
      MoveNext(b.(search := None, currentState := Patrolling, agent := b.agent.(speed := BasePatrolSpeed)), cfg)
    case Yielded(task, newPath) =>
      b.(search := Some(task), agent := if newPath.Some? then b.agent.(destination := newPath) else b.agent)
  }

  /** One frame: Update, then the search that was already running, then the
      pending waits. The state stays consistent; a sighted target always
      leaves the enemy chasing; only a finished search returns it to
      patrolling; the light is left alone and a lit enemy stays stopped; the
      waits left pending are the ones not yet up. */
  function Stepped(b: Brain, f: Frame, cfg: Setup): (r: Brain)
    requires Consistent(b, cfg) && FrameFits(f, cfg)
    ensures Consistent(r, cfg)
    ensures f.targetInSight ==> r.currentState == Chasing
    ensures r.currentState == NextState(b.currentState, f.targetInSight, f.reached) ||
      (b.currentState == Searching && !f.targetInSight && r.currentState == Patrolling)
    ensures r.currentState == Patrolling ==> b.currentState == Patrolling || b.currentState == Searching
    ensures r.isInLight == b.isInLight && (r.isInLight ==> r.agent.isStopped)
    ensures r.lastKnownPlayerPos ==
      (if b.currentState == Chasing && f.targetInSight then f.targetPosition else b.lastKnownPlayerPos)
    ensures r.waits ==
      Pending(b.waits + (if b.currentState == Patrolling && !f.targetInSight && f.reached then [f.time] else []), f.time)
  {
    var updated := Updated(b, f);
    var resumed := if b.search.Some? && updated.search.Some? then SearchResumed(updated, f, cfg) else updated;
    WaitsResumed(resumed, f.time, cfg)
  }

  /** The waits whose time is not yet up, in their order (PendingExactly,
      PendingSnoc). */
  function Pending(waits: seq<real>, now: real): (rest: seq<real>)
    ensures |rest| <= |waits|
    ensures forall k :: 0 <= k < |rest| ==> now - rest[k] < WaitTimeAtPatrolPoint
  {
    if waits == [] then []
    else (if now - waits[0] >= WaitTimeAtPatrolPoint then [] else [waits[0]]) + Pending(waits[1..], now)
  }

  /** Pending keeps exactly the waits whose time is not yet up. */
  lemma {:induction false} PendingExactly(waits: seq<real>, now: real)
    ensures forall w :: w in Pending(waits, now) <==> w in waits && now - w < WaitTimeAtPatrolPoint
  {
    if waits != [] {
      PendingExactly(waits[1..], now);
      assert waits == [waits[0]] + waits[1..];
    }
  }

  /** One more wait of a prefix, as the loop of ResumeWaits takes it. */
  lemma PendingPrefix(waits: seq<real>, i: int, now: real)
    requires 0 <= i < |waits|
    ensures Pending(waits[..i + 1], now) ==
      Pending(waits[..i], now) + (if now - waits[i] >= WaitTimeAtPatrolPoint then [] else [waits[i]])
  {
    assert waits[..i + 1] == waits[..i] + [waits[i]];
    PendingSnoc(waits[..i], waits[i], now);
  }

  /** Pending keeps the order of the waits: a wait added last is kept last,
      or dropped when its time is up. */
  lemma {:induction false} PendingSnoc(waits: seq<real>, w: real, now: real)
    ensures Pending(waits + [w], now) ==
      Pending(waits, now) + (if now - w >= WaitTimeAtPatrolPoint then [] else [w])
  {
    if waits == [] {
      assert Pending([w], now) == (if now - w >= WaitTimeAtPatrolPoint then [] else [w]) + Pending([], now);
    } else {
      assert (waits + [w])[1..] == waits[1..] + [w];
      PendingSnoc(waits[1..], w, now);
    }
  }

  class AIMovement {
    /** Frames never last longer than this (Unity caps delta time). */
    const maxDeltaTime: real
    const patrolPoints: seq<Vec3>
    var agent: Agent
    var currentState: AIState
    var currentPatrolIndex: int
    var lastKnownPlayerPos: Vec3
    var predictedPlayerPos: Vec3
    var isInLight: bool
    /** The running search coroutine, if any. */
    var search: Option<SearchTask>
    /** Start times of the pending patrol-point waits. */
    var waits: seq<real>
    var lastWallCheck: real
    var lastPathUpdate: real

    function Setting(): Setup {
      Setup(patrolPoints, maxDeltaTime)
    }

    function State(): Brain
      reads this
    {
      Brain(agent, currentState, currentPatrolIndex, lastKnownPlayerPos, predictedPlayerPos, isInLight,
            search, waits, lastWallCheck, lastPathUpdate)
    }

    ghost predicate Valid()
      reads this
    {
      Consistent(State(), Setting())
    }

    /** Field defaults before Start runs. */
    constructor (maxDeltaTime: real, patrolPoints: seq<Vec3>, agent: Agent)
      requires maxDeltaTime > 0.0
      ensures Valid()
      ensures this.maxDeltaTime == maxDeltaTime && this.patrolPoints == patrolPoints
      ensures State() == Brain(agent, Patrolling, 0, Vec3(0.0, 0.0, 0.0), Vec3(0.0, 0.0, 0.0), false,
                               None, [], 0.0, 0.0)
    {
      this.maxDeltaTime := maxDeltaTime;
      this.patrolPoints := patrolPoints;
      this.agent := agent;
      currentState := Patrolling;
      currentPatrolIndex := 0;
      lastKnownPlayerPos := Vec3(0.0, 0.0, 0.0);
      predictedPlayerPos := Vec3(0.0, 0.0, 0.0);
      isInLight := false;
      search := None;
      waits := [];
      lastWallCheck := 0.0;
      lastPathUpdate := 0.0;
    }

    /** Start: patrol speed, then head for the first patrol point. */
    method Start()
      requires Valid()
      modifies this
      ensures Valid()
      ensures State() == MoveNext(old(State()).(agent := old(agent).(speed := BasePatrolSpeed)), Setting())
    {
      agent := agent.(speed := BasePatrolSpeed);
      MoveToNextPatrolPoint();
    }

    /** The IsInLight setter: the agent stops exactly while lit. */
    method SetInLight(value: bool)
      requires Valid()
      modifies this`isInLight, this`agent
      ensures Valid()
      ensures State() == old(State()).(isInLight := value, agent := old(agent).(isStopped := value))
    {
      isInLight := value;
      agent := agent.(isStopped := isInLight);
    }

    method MoveToNextPatrolPoint()
      requires 0 <= currentPatrolIndex
      modifies this`currentPatrolIndex, this`agent
      ensures State() == MoveNext(old(State()), Setting())
    {
      if |patrolPoints| == 0 {
        return;
      }
      if currentPatrolIndex >= |patrolPoints| {
        currentPatrolIndex := 0;
      }
      agent := agent.(destination := Some(patrolPoints[currentPatrolIndex]));
      currentPatrolIndex := currentPatrolIndex + 1;
    }

    /** One frame: Update, then the coroutines that were already suspended
        resume. */
    method Tick(f: Frame)
      requires Valid() && FrameFits(f, Setting())
      modifies this
      ensures Valid()
      ensures State() == Stepped(old(State()), f, Setting())
    {
      var searching := search.Some?;
      Update(f);
      if searching && search.Some? {
        ResumeSearchTask(f);
      }
      ResumeWaits(f);
    }

    method Update(f: Frame)
      requires Valid() && FrameFits(f, Setting())
      modifies this
      ensures Valid()
      ensures State() == Updated(old(State()), f)
    {
      UpdateMovement(f);
      match currentState {
        case Patrolling => HandlePatrolState(f);
        case Chasing => HandleChaseState(f);
        case Searching => HandleSearchState(f);
        case WaitingAtPatrol => HandleWaitState(f);
      }
    }

    method UpdateMovement(f: Frame)
      requires Valid()
      modifies this`agent, this`lastWallCheck
      ensures Valid()
      ensures State() == Moved(old(State()), f)
    {
      if isInLight {
        return;
      }
      agent := agent.(isStopped := false, speed := StateSpeed(currentState));
      if currentState != Chasing && f.time - lastWallCheck > WallAvoidanceCheckInterval {
        lastWallCheck := f.time;
        if f.detour.Some? {
          agent := agent.(destination := f.detour, speed := agent.speed * DetourSlowdown);
        }
      }
    }

    method HandlePatrolState(f: Frame)
      requires Valid() && FrameFits(f, Setting()) && currentState == Patrolling
      modifies this
      ensures Valid()
      ensures State() == Handled(old(State()), f)
    {
      if f.targetInSight {
        TransitionToChasing(f);
      } else if f.reached {
        WaitAtPatrolPoint(f);
      }
    }

    method HandleChaseState(f: Frame)
      requires Valid() && FrameFits(f, Setting()) && currentState == Chasing
      modifies this
      ensures Valid()
      ensures State() == Handled(old(State()), f)
    {
      if f.targetInSight {
        lastKnownPlayerPos := f.targetPosition;
        if f.time - lastPathUpdate > PathUpdateInterval {
          lastPathUpdate := f.time;
          PredictTargetPosition(f);
          // Vector3.Distance(a, b) <= minChaseDistance, squared on both sides
          if SqrDistance(f.position, predictedPlayerPos) <= MinChaseDistance * MinChaseDistance {
            agent := agent.(destination := Some(predictedPlayerPos));
          }
        }
      } else {
        TransitionToSearching(f);
      }
    }

    method HandleSearchState(f: Frame)
      requires Valid() && FrameFits(f, Setting()) && currentState == Searching
      modifies this
      ensures Valid()
      ensures State() == Handled(old(State()), f)
    {
      if f.targetInSight {
        TransitionToChasing(f);
      }
    }

    method HandleWaitState(f: Frame)
      requires Valid() && FrameFits(f, Setting()) && currentState == WaitingAtPatrol
      modifies this
      ensures Valid()
      ensures State() == Handled(old(State()), f)
    {
      if f.targetInSight {
        TransitionToChasing(f);
      }
    }

    /** PredictTargetPosition, called while the target is in sight. */
    method PredictTargetPosition(f: Frame)
      requires f.deltaTime != 0.0
      modifies this`predictedPlayerPos
      ensures State() == old(State()).(predictedPlayerPos :=
        Predict(f.targetPosition, lastKnownPlayerPos, f.deltaTime, f.sample))
    {
      var targetVelocity := Scale(Sub(f.targetPosition, lastKnownPlayerPos), 1.0 / f.deltaTime);
      predictedPlayerPos := Add(f.targetPosition, Scale(targetVelocity, PredictionMultiplier));
      match f.sample(predictedPlayerPos) {
        case Some(hit) => predictedPlayerPos := hit;
        case None => predictedPlayerPos := lastKnownPlayerPos;
      }
    }

    method TransitionToChasing(f: Frame)
      requires Valid()
      modifies this`currentState, this`agent, this`search, this`lastPathUpdate
      ensures Valid()
      ensures State() == ChaseStart(old(State()), f.targetPosition)
    {
      if currentState != Chasing {
        currentState := Chasing;
        agent := agent.(speed := BaseChaseSpeed, acceleration := AccelerationRate * 2.0,
                        angularSpeed := RotationSpeed * 2.0, stoppingDistance := ChaseStoppingDistance);
        search := None;
        lastPathUpdate := 0.0;
        agent := agent.(destination := Some(f.targetPosition));
      }
    }

    method TransitionToSearching(f: Frame)
      requires Valid() && FrameFits(f, Setting()) && currentState == Chasing
      modifies this`currentState, this`agent, this`search
      ensures Valid()
      ensures State() == SearchStart(old(State()), f)
    {
      currentState := Searching;
      agent := agent.(speed := BaseSearchSpeed);
      var r := BeginPoint(0.0, f.reached, SearchPath(lastKnownPlayerPos, f), f.deltaTime);
      search := Some(r.task);
      if r.newPath.Some? {
        agent := agent.(destination := r.newPath);
      }
    }

    method WaitAtPatrolPoint(f: Frame)
      requires Valid() && currentState == Patrolling
      modifies this`currentState, this`waits
      ensures Valid()
      ensures State() == StartWait(old(State()), f.time)
    {
      currentState := WaitingAtPatrol;
      waits := waits + [f.time];
    }

    /** Resumes a running search for this frame. */
    method ResumeSearchTask(f: Frame)
      requires Valid() && FrameFits(f, Setting()) && search.Some?
      modifies this
      ensures Valid()
      ensures State() == SearchResumed(old(State()), f, Setting())
    {
      var r := ResumeSearch(search.value, f.reached, SearchPath(lastKnownPlayerPos, f), f.deltaTime);
      match r {
        case Finished =>
          search := None;
          currentState := Patrolling;
          agent := agent.(speed := BasePatrolSpeed);
          MoveToNextPatrolPoint();
        case Yielded(task, newPath) =>
          search := Some(task);
          if newPath.Some? {
            agent := agent.(destination := newPath);
          }
      }
    }

    /** Resumes the pending waits in the order they started: each one whose
        time is up moves on to the next patrol point and ends. */
    method ResumeWaits(f: Frame)
      requires Valid()
      modifies this`waits, this`currentPatrolIndex, this`agent
      ensures Valid()
      ensures State() == WaitsResumed(old(State()), f.time, Setting())
    {
      var pending := ResumeDueWaits(f.time);
      waits := pending;
    }

    /** The resumption loop: each wait whose time is up is one move; the
        waits not yet up are returned in order. */
    method ResumeDueWaits(now: real) returns (pending: seq<real>)
      requires 0 <= currentPatrolIndex
      modifies this`currentPatrolIndex, this`agent
      ensures pending == Pending(waits, now)
      ensures State() == MoveNextTimes(old(State()), Setting(), |waits| - |pending|)
    {
      ghost var start := State();
      ghost var moves: nat := 0;
      pending := [];
      var i := 0;
      while i < |waits|
        invariant 0 <= i <= |waits|
        invariant pending == Pending(waits[..i], now) && moves == i - |pending|
        invariant State() == MoveNextTimes(start, Setting(), moves)
      {
        PendingPrefix(waits, i, now);
        if now - waits[i] >= WaitTimeAtPatrolPoint {
          MoveToNextPatrolPoint();
          moves := moves + 1;
        } else {
          pending := pending + [waits[i]];
        }
        i := i + 1;
      }
      assert waits[..i] == waits;
    }
  }
}
