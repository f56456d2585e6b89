/** The maze generator: a randomized backtracker that carves passages through a
    mazeWidth x mazeHeight grid of cells, each storing only its top and left
    walls (Assets/Scripts/MazeGenerator.cs). Random.Range is an oracle: the
    n-th neighbour check of a carving run draws its shuffle from rolls(n). */
module MazeGenerator {
  import opened Engine

  datatype Direction = Up | Down | Left | Right

  /** Unity's Vector2Int. */
  datatype Vec2 = Vec2(x: int, y: int)

  /** One grid cell. The wall to the right of (x, y) is the left wall of
      (x + 1, y); the wall above (x, y) (towards y + 1) is its own top wall. */
  datatype MazeCell = MazeCell(x: int, y: int, visited: bool, topWall: bool, leftWall: bool)

  datatype Wall = TopWall | LeftWall

  /** The direction list the shuffle copies, in declaration order. */
  const Directions: seq<Direction> := [Up, Down, Left, Right]

  /** What successive Random.Range(0, count) calls can return while a list of n
      entries is emptied: the k-th draw is below n - k. */
  predicate IsDraws(draws: seq<nat>, n: nat) {
    |draws| >= n && forall k :: 0 <= k < n ==> draws[k] < n - k
  }

  /** The order in which repeatedly removing entry draws[k] of what is left
      lists the entries of dir. */
  function Shuffled<T>(dir: seq<T>, draws: seq<nat>): seq<T>
    requires IsDraws(draws, |dir|)
    decreases |dir|
  {
    if dir == [] then []
    else
      var k := draws[0];
      assert IsDraws(draws[1..], |dir| - 1) by {
        forall j | 0 <= j < |dir| - 1 ensures draws[1..][j] < |dir| - 1 - j {
          assert draws[1..][j] == draws[j + 1];
        }
      }
      [dir[k]] + Shuffled(dir[..k] + dir[k + 1..], draws[1..])
  }

  /** Any in-range draws give a permutation: every entry exactly as often as before. */
  lemma {:induction false} ShuffledPermutes<T>(dir: seq<T>, draws: seq<nat>)
    requires IsDraws(draws, |dir|)
    ensures |Shuffled(dir, draws)| == |dir|
    ensures multiset(Shuffled(dir, draws)) == multiset(dir)
  {
    if dir != [] {
      var k := draws[0];
      var rest := dir[..k] + dir[k + 1..];
      assert IsDraws(draws[1..], |dir| - 1) by {
        forall j | 0 <= j < |dir| - 1 ensures draws[1..][j] < |dir| - 1 - j {
          assert draws[1..][j] == draws[j + 1];
        }
      }
      ShuffledPermutes(rest, draws[1..]);
      assert dir == dir[..k] + [dir[k]] + dir[k + 1..];
      assert multiset(dir) == multiset(dir[..k]) + multiset{dir[k]} + multiset(dir[k + 1..]);
    }
  }

  /** The shuffled direction list holds each of the four directions exactly once. */
  lemma ShuffledDirectionsComplete(draws: seq<nat>)
    requires IsDraws(draws, 4)
    ensures |Shuffled(Directions, draws)| == 4
    ensures forall d: Direction :: multiset(Shuffled(Directions, draws))[d] == 1
  {
    ShuffledPermutes(Directions, draws);
    assert multiset(Directions) == multiset{Up, Down, Left, Right};
    forall d: Direction ensures multiset(Directions)[d] == 1 {
      match d
      case Up =>
      case Down =>
      case Left =>
      case Right =>
    }
  }

  /** The cell one step from c in direction d. */
  function Step(c: Vec2, d: Direction): Vec2 {
    match d
    case Up => Vec2(c.x, c.y + 1)
    case Down => Vec2(c.x, c.y - 1)
    case Right => Vec2(c.x + 1, c.y)
    case Left => Vec2(c.x - 1, c.y)
  }

  predicate Adjacent(a: Vec2, b: Vec2) {
    (a.x == b.x && (a.y == b.y + 1 || b.y == a.y + 1)) ||
    (a.y == b.y && (a.x == b.x + 1 || b.x == a.x + 1))
  }

  /** The stored flag that BreakWalls clears for a pair of cells: the left wall
      of the cell with the larger x, or the top wall of the cell with the
      smaller y; nothing when the two cells coincide. */
  function WallBetween(primaryCell: Vec2, secondaryCell: Vec2): (r: Option<(Vec2, Wall)>)
    ensures r.None? <==> primaryCell == secondaryCell
    ensures Adjacent(primaryCell, secondaryCell) ==>
      r.Some? &&
      (r.value.1 == LeftWall ==>
        {primaryCell, secondaryCell} == {r.value.0, Vec2(r.value.0.x - 1, r.value.0.y)}) &&
      (r.value.1 == TopWall ==>
        {primaryCell, secondaryCell} == {r.value.0, Vec2(r.value.0.x, r.value.0.y + 1)})
  {
    if primaryCell.x > secondaryCell.x then Some((primaryCell, LeftWall))
    else if primaryCell.x < secondaryCell.x then Some((secondaryCell, LeftWall))
    else if primaryCell.y < secondaryCell.y then Some((primaryCell, TopWall))
    else if primaryCell.y > secondaryCell.y then Some((secondaryCell, TopWall))
    else None
  }

  /** The cell stored at `at` after the wall `opening` (if any) is cleared. */
  function Opened(c: MazeCell, at: Vec2, opening: Option<(Vec2, Wall)>): MazeCell {
    match opening
    case None => c
    case Some((owner, wall)) =>
      if owner != at then c
      else if wall == LeftWall then c.(leftWall := false)
      else c.(topWall := false)
  }

  /** Carving only adds: coordinates stay, visited only goes false to true,
      walls only go true to false. */
  predicate Grown(before: MazeCell, after: MazeCell) {
    after.x == before.x && after.y == before.y &&
    (before.visited ==> after.visited) &&
    (after.topWall ==> before.topWall) &&
    (after.leftWall ==> before.leftWall)
  }

  /** The start cell CarvePath uses: an out-of-range start is reset to (0, 0),
      but the y coordinate is compared with the width, not the height. */
  function CarveStart(mazeWidth: int, x: int, y: int): (s: Vec2)
    ensures mazeWidth >= 1 ==> 0 <= s.x < mazeWidth && 0 <= s.y < mazeWidth
    ensures 0 <= x < mazeWidth && 0 <= y < mazeWidth ==> s == Vec2(x, y)
    ensures !(0 <= x < mazeWidth && 0 <= y < mazeWidth) ==> s == Vec2(0, 0)
  {
    if x < 0 || y < 0 || x > mazeWidth - 1 || y > mazeWidth - 1 then Vec2(0, 0) else Vec2(x, y)
  }

  /** The carving start lies inside the grid; otherwise marking it visited
      indexes outside the array. */
  predicate StartFits(mazeWidth: int, mazeHeight: int, x: int, y: int) {
    var s := CarveStart(mazeWidth, x, y);
    0 <= s.x < mazeWidth && 0 <= s.y < mazeHeight
  }

  /** In a grid wider than it is high, a start row between the height and the
      width passes the clamp unchanged and lies outside the grid. */
  lemma StartClampMissesRows(mazeWidth: int, mazeHeight: int)
    requires 1 <= mazeHeight < mazeWidth
    ensures CarveStart(mazeWidth, 0, mazeHeight) == Vec2(0, mazeHeight)
    ensures !StartFits(mazeWidth, mazeHeight, 0, mazeHeight)
  {
  }

  /** A start inside the grid is kept, and any start is accepted by a grid at
      least as high as it is wide. */
  lemma StartFitsCases(mazeWidth: int, mazeHeight: int, x: int, y: int)
    requires 1 <= mazeWidth && 1 <= mazeHeight
    ensures 0 <= x < mazeWidth && 0 <= y < mazeHeight ==> StartFits(mazeWidth, mazeHeight, x, y)
    ensures mazeWidth <= mazeHeight ==> StartFits(mazeWidth, mazeHeight, x, y)
  {
  }

  class MazeGenerator {
    const mazeWidth: nat
    const mazeHeight: nat
    const startX: int
    const startY: int
    var maze: array2<MazeCell>
    var currentCell: Vec2

    constructor (mazeWidth: nat, mazeHeight: nat, startX: int, startY: int)
      ensures this.mazeWidth == mazeWidth && this.mazeHeight == mazeHeight
      ensures this.startX == startX && this.startY == startY
    {
      this.mazeWidth := mazeWidth;
      this.mazeHeight := mazeHeight;
      this.startX := startX;
      this.startY := startY;
      maze := new MazeCell[0, 0];
      currentCell := Vec2(0, 0);
    }

    ghost predicate Shaped()
      reads this`maze
    {
      maze.Length0 == mazeWidth && maze.Length1 == mazeHeight
    }

    ghost predicate InGrid(c: Vec2) {
      0 <= c.x < mazeWidth && 0 <= c.y < mazeHeight
    }

    /** The cells the backtracker has not left yet. */
    ghost function Unvisited(): set<Vec2>
      reads this`maze, maze
      requires Shaped()
    {
      set i, j | 0 <= i < mazeWidth && 0 <= j < mazeHeight && !maze[i, j].visited :: Vec2(i, j)
    }

    /** Every cell knows its own coordinates. */
    ghost predicate Coordinates()
      reads this`maze, maze
      requires Shaped()
    {
      forall i, j :: 0 <= i < mazeWidth && 0 <= j < mazeHeight ==> maze[i, j].x == i && maze[i, j].y == j
    }

    /** Every cleared wall separates two cells of the grid, one of which has
        been visited. */
    ghost predicate Carved()
      reads this`maze, maze
      requires Shaped()
    {
      forall i, j :: 0 <= i < mazeWidth && 0 <= j < mazeHeight ==> CarvedAt(i, j)
    }

    ghost predicate CarvedAt(i: int, j: int)
      reads this`maze, maze
      requires Shaped() && 0 <= i < mazeWidth && 0 <= j < mazeHeight
    {
      (!maze[i, j].leftWall ==> 1 <= i && (maze[i - 1, j].visited || maze[i, j].visited)) &&
      (!maze[i, j].topWall ==> j + 1 < mazeHeight && (maze[i, j].visited || maze[i, j + 1].visited))
    }

    /** Some orthogonal neighbour of c is in the grid and unvisited. */
    ghost predicate HasValidNeighbour(c: Vec2)
      reads this`maze, maze
      requires Shaped()
    {
      exists d: Direction :: Step(c, d) in Unvisited()
    }

    /** The first direction of `order` leading to a valid cell, or c itself. */
    ghost function FirstValid(c: Vec2, order: seq<Direction>): Vec2
      reads this`maze, maze
      requires Shaped()
    {
      if order == [] then c
      else if Step(c, order[0]) in Unvisited() then Step(c, order[0])
      else FirstValid(c, order[1..])
    }

    /** A start in the row just above the grid is not a dead end while the
        cell below it is unvisited: CarvePath moves down from it, and marking
        the start visited then indexes outside the array. */
    lemma {:induction false} StartOnTopRowMovesDown(c: Vec2)
      requires Shaped() && 0 <= c.x < mazeWidth && c.y == mazeHeight >= 1
      requires !maze[c.x, c.y - 1].visited
      ensures HasValidNeighbour(c) && !InGrid(c)
    {
      assert Step(c, Down) == Vec2(c.x, mazeHeight - 1);
      assert Step(c, Down) in Unvisited();
    }

    /** A start further above the grid has no valid neighbour: CarvePath
        stops at once and the grid stays uncarved. */
    lemma {:induction false} StartAboveTopRowStops(c: Vec2)
      requires Shaped() && c.y > mazeHeight
      ensures !HasValidNeighbour(c)
    {
      forall d: Direction
        ensures Step(c, d) !in Unvisited()
      {
        assert Step(c, d).y >= mazeHeight;
      }
    }

    /** Allocates the grid: every cell at its own coordinates, unvisited, with
        both walls standing. */
    method AllocateMaze()
      modifies this`maze
      ensures fresh(maze) && Shaped()
      ensures forall i, j :: 0 <= i < mazeWidth && 0 <= j < mazeHeight ==>
        maze[i, j] == MazeCell(i, j, false, true, true)
    {
      var grid := new MazeCell[mazeWidth, mazeHeight];
      for x := 0 to mazeWidth
        invariant forall i, j :: 0 <= i < x && 0 <= j < mazeHeight ==>
          grid[i, j] == MazeCell(i, j, false, true, true)
      {
        for y := 0 to mazeHeight
          invariant forall i, j :: 0 <= i < x && 0 <= j < mazeHeight ==>
            grid[i, j] == MazeCell(i, j, false, true, true)
          invariant forall j :: 0 <= j < y ==> grid[x, j] == MazeCell(x, j, false, true, true)
        {
          grid[x, y] := MazeCell(x, y, false, true, true);
        }
      }
      maze := grid;
    }

    /** Builds a fresh grid and carves it from the configured start. */
    method GetMaze(rolls: nat -> seq<nat>) returns (m: array2<MazeCell>)
      requires StartFits(mazeWidth, mazeHeight, startX, startY)
      requires forall n :: IsDraws(rolls(n), 4)
      modifies this
      ensures fresh(m) && m == maze && Shaped()
      ensures forall i, j :: 0 <= i < mazeWidth && 0 <= j < mazeHeight ==>
        Grown(MazeCell(i, j, false, true, true), m[i, j])
      ensures Coordinates() && Carved()
      ensures InGrid(currentCell) && !HasValidNeighbour(currentCell)
    {
      AllocateMaze();
      CarvePath(startX, startY, rolls);
      m := maze;
    }

    /** Copies the four directions into a random order, drawing each next
        direction from those left. */
    static method GetRandomDirections(draws: seq<nat>) returns (rndDir: seq<Direction>)
      requires IsDraws(draws, 4)
      ensures rndDir == Shuffled(Directions, draws)
      ensures |rndDir| == 4 && forall d: Direction :: multiset(rndDir)[d] == 1
    {
      var dir := Directions;
      rndDir := [];
      var drawn := 0;
      while |dir| > 0
        invariant drawn + |dir| == 4
        invariant IsDraws(draws[drawn..], |dir|)
        invariant rndDir + Shuffled(dir, draws[drawn..]) == Shuffled(Directions, draws)
      {
        var rnd := draws[drawn];
        assert draws[drawn..][1..] == draws[drawn + 1..];
        rndDir := rndDir + [dir[rnd]];
        dir := dir[..rnd] + dir[rnd + 1..];
        drawn := drawn + 1;
      }
      ShuffledDirectionsComplete(draws);
    }

    /** A cell is valid when it lies in the grid and has not been visited. */
    predicate IsCellValid(x: int, y: int)
      reads this`maze, maze
      requires Shaped()
      ensures IsCellValid(x, y) <==> Vec2(x, y) in Unvisited()
    {
      !(x < 0 || y < 0 || x > mazeWidth - 1 || y > mazeHeight - 1 || maze[x, y].visited)
    }

    /** Tries the directions in shuffled order and returns the first valid
        neighbour of currentCell, or currentCell when there is none. */
    method CheckNeighbours(draws: seq<nat>) returns (next: Vec2)
      requires Shaped() && IsDraws(draws, 4)
      ensures next == FirstValid(currentCell, Shuffled(Directions, draws))
      ensures next == currentCell <==> !HasValidNeighbour(currentCell)
      ensures next != currentCell ==> Adjacent(currentCell, next) && next in Unvisited()
    {
      var rndDir := GetRandomDirections(draws);
      var i := 0;
      while i < |rndDir|
        invariant 0 <= i <= |rndDir|
        decreases |rndDir| - i
        invariant FirstValid(currentCell, rndDir[i..]) == FirstValid(currentCell, rndDir)
        invariant forall k :: 0 <= k < i ==> Step(currentCell, rndDir[k]) !in Unvisited()
      {
        var neighbour := currentCell;
        match rndDir[i] {
          case Up => neighbour := neighbour.(y := neighbour.y + 1);
          case Down => neighbour := neighbour.(y := neighbour.y - 1);
          case Right => neighbour := neighbour.(x := neighbour.x + 1);
          case Left => neighbour := neighbour.(x := neighbour.x - 1);
        }
        assert neighbour == Step(currentCell, rndDir[i]);
        if IsCellValid(neighbour.x, neighbour.y) {
          return neighbour;
        }
        assert rndDir[i..][1..] == rndDir[i + 1..];
        i := i + 1;
      }
      forall d: Direction ensures Step(currentCell, d) !in Unvisited() {
        assert multiset(rndDir)[d] == 1;
        assert d in rndDir;
      }
      return currentCell;
    }

    /** Clears the one stored flag between two cells; nothing else changes. */
    method BreakWalls(primaryCell: Vec2, secondaryCell: Vec2)
      requires Shaped() && InGrid(primaryCell) && InGrid(secondaryCell)
      modifies maze
      ensures forall i, j :: 0 <= i < mazeWidth && 0 <= j < mazeHeight ==>
        maze[i, j] == Opened(old(maze[i, j]), Vec2(i, j), WallBetween(primaryCell, secondaryCell))
    {
      if primaryCell.x > secondaryCell.x {
        maze[primaryCell.x, primaryCell.y] := maze[primaryCell.x, primaryCell.y].(leftWall := false);
      } else if primaryCell.x < secondaryCell.x {
        maze[secondaryCell.x, secondaryCell.y] := maze[secondaryCell.x, secondaryCell.y].(leftWall := false);
      } else if primaryCell.y < secondaryCell.y {
        maze[primaryCell.x, primaryCell.y] := maze[primaryCell.x, primaryCell.y].(topWall := false);
      } else if primaryCell.y > secondaryCell.y {
        maze[secondaryCell.x, secondaryCell.y] := maze[secondaryCell.x, secondaryCell.y].(topWall := false);
      }
    }

    /** Opens the wall towards the chosen neighbour and marks the cell being
        left as visited. */
    method LeaveCell(nextCell: Vec2)
      requires Shaped() && Carved() && InGrid(currentCell)
      requires Adjacent(currentCell, nextCell) && nextCell in Unvisited()
      modifies maze
      ensures Carved()
      ensures Unvisited() == old(Unvisited()) - {currentCell}
      ensures forall i, j :: 0 <= i < mazeWidth && 0 <= j < mazeHeight ==> Grown(old(maze[i, j]), maze[i, j])
    {
      ghost var unvisited0 := Unvisited();
      assert IsCellValid(nextCell.x, nextCell.y);
      BreakWalls(currentCell, nextCell);
      maze[currentCell.x, currentCell.y] := maze[currentCell.x, currentCell.y].(visited := true);
      forall i, j | 0 <= i < mazeWidth && 0 <= j < mazeHeight ensures CarvedAt(i, j) {
        assert old(CarvedAt(i, j));
        assert maze[i, j].visited == (old(maze[i, j].visited) || Vec2(i, j) == currentCell);
        assert 1 <= i ==> maze[i - 1, j].visited == (old(maze[i - 1, j].visited) || Vec2(i - 1, j) == currentCell);
        assert j + 1 < mazeHeight ==> maze[i, j + 1].visited == (old(maze[i, j + 1].visited) || Vec2(i, j + 1) == currentCell);
      }
      assert Unvisited() == unvisited0 - {currentCell} by {
        forall v | v in Unvisited() ensures v in unvisited0 - {currentCell} {
          assert IsCellValid(v.x, v.y);
        }
        forall v | v in unvisited0 - {currentCell} ensures v in Unvisited() {
          assert IsCellValid(v.x, v.y);
        }
      }
    }

    /** The backward scan of the path: each step makes the last entry the
        current cell, removes it, and checks its neighbours again, stopping at
        the first entry that has a valid neighbour. */
    method Backtrack(path0: seq<Vec2>, rolls: nat -> seq<nat>, calls0: nat, ghost entered: bool)
      returns (path: seq<Vec2>, nextCell: Vec2, calls: nat)
      requires Shaped() && InGrid(currentCell) && forall k :: 0 <= k < |path0| ==> InGrid(path0[k])
      requires !HasValidNeighbour(currentCell)
      requires entered ==> |path0| > 0 && path0[|path0| - 1] == currentCell
      requires forall k :: 0 <= k < |path0| - (if entered then 1 else 0) ==> path0[k] !in Unvisited()
      requires forall n :: IsDraws(rolls(n), 4)
      modifies this`currentCell
      ensures |path| <= |path0| && path == path0[..|path|]
      ensures InGrid(currentCell)
      ensures forall k :: 0 <= k < |path| ==> path[k] !in Unvisited()
      ensures nextCell == currentCell <==> !HasValidNeighbour(currentCell)
      ensures nextCell == currentCell ==> path == []
      ensures nextCell != currentCell ==>
        currentCell !in Unvisited() && |path| + (if entered then 2 else 1) <= |path0|
      ensures |path0| > 0 ==> |path| < |path0| && currentCell == path0[|path|]
      ensures |path0| == 0 ==> currentCell == old(currentCell)
    {
      path, nextCell, calls := path0, currentCell, calls0;
      ghost var top := entered;
      var i := |path| - 1;
      while i >= 0
        invariant i == |path| - 1
        invariant |path| <= |path0| && path == path0[..|path|]
        invariant InGrid(currentCell)
        invariant nextCell == currentCell && !HasValidNeighbour(currentCell)
        invariant top ==> |path| > 0 && path[|path| - 1] == currentCell
        invariant forall k :: 0 <= k < |path| - (if top then 1 else 0) ==> path[k] !in Unvisited()
        invariant top ==> entered && |path| == |path0|
        invariant !top ==> |path| + (if entered then 1 else 0) <= |path0|
        invariant |path| < |path0| ==> currentCell == path0[|path|]
        invariant |path| == |path0| ==> currentCell == old(currentCell)
      {
        ghost var wasTop := top;
        currentCell := path[i];
        path := path[..i];
        top := false;
        nextCell := CheckNeighbours(rolls(calls));
        calls := calls + 1;
        if nextCell != currentCell {
          assert !wasTop;
          break;
        }
        i := i - 1;
      }
    }

    /** The backtracker's path: every entry lies in the grid and has been
        left (so is visited), except the last one while it is the cell just
        entered, which is the current cell and still unvisited. */
    ghost predicate Trail(path: seq<Vec2>, entered: bool)
      reads this, maze
      requires Shaped()
    {
      InGrid(currentCell) && (forall k :: 0 <= k < |path| ==> InGrid(path[k])) &&
      (entered ==> |path| > 0 && path[|path| - 1] == currentCell && currentCell in Unvisited()) &&
      (forall k :: 0 <= k < |path| - (if entered then 1 else 0) ==> path[k] !in Unvisited())
    }

    /** A move: open the wall, mark the cell being left visited, step to the
        neighbour and append it to the path. */
    method MoveTo(nextCell: Vec2, path0: seq<Vec2>, ghost entered: bool) returns (path: seq<Vec2>)
      requires Shaped() && Carved() && Trail(path0, entered)
      requires Adjacent(currentCell, nextCell) && nextCell in Unvisited()
      modifies this`currentCell, maze
      ensures Carved() && Trail(path, true)
      ensures path == path0 + [nextCell] && currentCell == nextCell
      ensures Unvisited() == old(Unvisited()) - {old(currentCell)}
      ensures forall i, j :: 0 <= i < mazeWidth && 0 <= j < mazeHeight ==> Grown(old(maze[i, j]), maze[i, j])
    {
      ghost var left := currentCell;
      LeaveCell(nextCell);
      assert left !in Unvisited();
      assert forall k :: 0 <= k < |path0| ==> path0[k] !in Unvisited();
      assert IsCellValid(nextCell.x, nextCell.y);
      currentCell := nextCell;
      path := path0 + [currentCell];
    }

    /** The backtracker. A cell is marked visited only when it is left, so a
        dead end is never marked and may be entered again; backtracking pops
        path entries until one has a valid neighbour. */
    method CarvePath(x: int, y: int, rolls: nat -> seq<nat>)
      requires Shaped() && Carved()
      requires StartFits(mazeWidth, mazeHeight, x, y)
      requires forall n :: IsDraws(rolls(n), 4)
      modifies this`currentCell, maze
      ensures Shaped() && Carved()
      ensures forall i, j :: 0 <= i < mazeWidth && 0 <= j < mazeHeight ==> Grown(old(maze[i, j]), maze[i, j])
      ensures InGrid(currentCell) && !HasValidNeighbour(currentCell)
    {
      currentCell := CarveStart(mazeWidth, x, y);
      var path: seq<Vec2> := [];
      var calls: nat := 0;
      var deadEnd := false;
      // true while currentCell is the cell the last move entered (the end of path)
      ghost var entered := false;

      while !deadEnd
        invariant Shaped() && Carved()
        invariant forall i, j :: 0 <= i < mazeWidth && 0 <= j < mazeHeight ==> Grown(old(maze[i, j]), maze[i, j])
        invariant Trail(path, entered)
        invariant deadEnd ==> !HasValidNeighbour(currentCell)
        decreases !deadEnd, Unvisited(),
          2 * |path| - (if entered then 2 else 0) + (if !entered && currentCell !in Unvisited() then 1 else 0)
      {
        var nextCell := CheckNeighbours(rolls(calls));
        calls := calls + 1;
        if nextCell == currentCell {
          path, nextCell, calls := Backtrack(path, rolls, calls, entered);
          entered := false;
          if nextCell == currentCell {
            deadEnd := true;
          }
        } else {
          path := MoveTo(nextCell, path, entered);
          entered := true;
        }
      }
    }
  }
}
