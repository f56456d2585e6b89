/** Choosing where the player appears in a freshly carved maze
    (Assets/Scripts/MazeSpawnManager.cs): a scan for a 2x2 clear area away
    from the edge, then a scan for a single cell with both stored walls open,
    then a fixed default. */
module MazeSpawn {
  import opened Engine
  import opened MazeGenerator

  /** Height above the floor at which the player is placed. */
  const SpawnHeight: real := 0.08

  /** Which scan produced the spawn point. */
  datatype Spawn = ClearSquare(x: int, y: int) | ClearCell(x: int, y: int) | Fallback

  /** Both walls a cell stores are open. */
  predicate OpenCell(c: MazeCell) {
    !c.topWall && !c.leftWall
  }

  /** The 2x2 test: (x, y) is open, the wall to its right is open and the
      wall above the cell above it is open. */
  predicate ClearSquareAt(maze: array2<MazeCell>, x: int, y: int)
    reads maze
    requires 0 <= x && x + 1 < maze.Length0 && 0 <= y && y + 1 < maze.Length1
  {
    OpenCell(maze[x, y]) && !maze[x + 1, y].leftWall && !maze[x, y + 1].topWall
  }

  /** (i, j) is visited before (x, y) by a scan with x outer and y inner. */
  predicate Before(i: int, j: int, x: int, y: int) {
    i < x || (i == x && j < y)
  }

  /** No cell of the interior scan range passes the 2x2 test. */
  predicate NoClearSquare(maze: array2<MazeCell>)
    reads maze
  {
    forall i, j :: 1 <= i < maze.Length0 - 1 && 1 <= j < maze.Length1 - 1 ==> !ClearSquareAt(maze, i, j)
  }

  /** No cell of the grid has both stored walls open. */
  predicate NoOpenCell(maze: array2<MazeCell>)
    reads maze
  {
    forall i, j :: 0 <= i < maze.Length0 && 0 <= j < maze.Length1 ==> !OpenCell(maze[i, j])
  }

  /** The spawn the scans choose: the first clear 2x2 square in scan order,
      at its shared corner; else the first open cell, at its centre; else
      the fallback position. */
  predicate ChosenSpawn(maze: array2<MazeCell>, mazeWidth: nat, mazeHeight: nat, cellSize: real,
                        spawn: Spawn, position: Vec3)
    reads maze
    requires maze.Length0 == mazeWidth && maze.Length1 == mazeHeight
  {
    (spawn.ClearSquare? ==>
      1 <= spawn.x < mazeWidth - 1 && 1 <= spawn.y < mazeHeight - 1 &&
      ClearSquareAt(maze, spawn.x, spawn.y) &&
      (forall i, j :: 1 <= i < mazeWidth - 1 && 1 <= j < mazeHeight - 1 && Before(i, j, spawn.x, spawn.y) ==>
        !ClearSquareAt(maze, i, j)) &&
      position == Vec3(spawn.x as real * cellSize + cellSize, SpawnHeight, spawn.y as real * cellSize + cellSize)) &&
    (!spawn.ClearSquare? ==> NoClearSquare(maze)) &&
    (spawn.ClearCell? ==>
      0 <= spawn.x < mazeWidth && 0 <= spawn.y < mazeHeight &&
      OpenCell(maze[spawn.x, spawn.y]) &&
      (forall i, j :: 0 <= i < mazeWidth && 0 <= j < mazeHeight && Before(i, j, spawn.x, spawn.y) ==>
        !OpenCell(maze[i, j])) &&
      position == Vec3(spawn.x as real * cellSize + cellSize / 2.0, SpawnHeight,
                       spawn.y as real * cellSize + cellSize / 2.0)) &&
    (spawn.Fallback? ==> NoOpenCell(maze) && position == Vec3(cellSize, SpawnHeight, cellSize))
  }

  /** The scans of MazeSpawnManager.Start over a grid of mazeWidth x
      mazeHeight cells. The result is the first match in scan order of the
      first scan that finds one, with the world position the source places
      the player at; the fallbacks are reached only when the earlier scans
      found nothing. */
  method FindSpawn(maze: array2<MazeCell>, mazeWidth: nat, mazeHeight: nat, cellSize: real)
    returns (spawn: Spawn, position: Vec3)
    requires maze.Length0 == mazeWidth && maze.Length1 == mazeHeight
    ensures ChosenSpawn(maze, mazeWidth, mazeHeight, cellSize, spawn, position)
  {
    var x := 1;
    while x < mazeWidth - 1
      invariant 1 <= x
      invariant forall i, j :: 1 <= i < x && i < mazeWidth - 1 && 1 <= j < mazeHeight - 1 ==> !ClearSquareAt(maze, i, j)
    {
      var y := 1;
      while y < mazeHeight - 1
        invariant 1 <= y
        invariant forall j :: 1 <= j < y && j < mazeHeight - 1 ==> !ClearSquareAt(maze, x, j)
      {
        var cell := maze[x, y];
        var cellRight := maze[x + 1, y];
        var cellUp := maze[x, y + 1];
        if !cell.topWall && !cell.leftWall && !cellRight.leftWall && !cellUp.topWall {
          var worldX := x as real * cellSize + cellSize;
          var worldZ := y as real * cellSize + cellSize;
          return ClearSquare(x, y), Vec3(worldX, SpawnHeight, worldZ);
        }
        y := y + 1;
      }
      x := x + 1;
    }

    x := 0;
    while x < mazeWidth
      invariant 0 <= x <= mazeWidth
      invariant forall i, j :: 0 <= i < x && 0 <= j < mazeHeight ==> !OpenCell(maze[i, j])
    {
      var y := 0;
      while y < mazeHeight
        invariant 0 <= y <= mazeHeight
        invariant forall j :: 0 <= j < y ==> !OpenCell(maze[x, j])
      {
        var cell := maze[x, y];
        if !cell.topWall && !cell.leftWall {
          var worldX := x as real * cellSize + cellSize / 2.0;
          var worldZ := y as real * cellSize + cellSize / 2.0;
          return ClearCell(x, y), Vec3(worldX, SpawnHeight, worldZ);
        }
        y := y + 1;
      }
      x := x + 1;
    }

    return Fallback, Vec3(cellSize, SpawnHeight, cellSize);
  }

  /** In a carved grid a cell with both stored walls open is never in the
      left column or the top row: the generator clears a left wall only
      between two grid cells, and a top wall only below another grid cell. */
  lemma OpenCellAwayFromEdge(gen: MazeGenerator, x: int, y: int)
    requires gen.Shaped() && gen.Carved()
    requires 0 <= x < gen.mazeWidth && 0 <= y < gen.mazeHeight && OpenCell(gen.maze[x, y])
    ensures 1 <= x && y + 1 < gen.mazeHeight
  {
    assert gen.CarvedAt(x, y);
  }

  /** MazeSpawnManager.Start: carve a maze, choose the spawn point and place
      exactly one player there. */
  method Start(gen: MazeGenerator, cellSize: real, rolls: nat -> seq<nat>)
    returns (spawn: Spawn, position: Vec3)
    requires StartFits(gen.mazeWidth, gen.mazeHeight, gen.startX, gen.startY)
    requires forall n :: IsDraws(rolls(n), 4)
    modifies gen
    ensures fresh(gen.maze) && gen.Shaped() && gen.Coordinates() && gen.Carved()
    ensures forall i, j :: 0 <= i < gen.mazeWidth && 0 <= j < gen.mazeHeight ==>
      Grown(MazeCell(i, j, false, true, true), gen.maze[i, j])
    ensures ChosenSpawn(gen.maze, gen.mazeWidth, gen.mazeHeight, cellSize, spawn, position)
    ensures spawn.ClearCell? ==> 1 <= spawn.x && spawn.y + 1 < gen.mazeHeight
    ensures spawn.Fallback? ==> NoClearSquare(gen.maze) && NoOpenCell(gen.maze)
  {
    var maze := gen.GetMaze(rolls);
    spawn, position := FindSpawn(maze, gen.mazeWidth, gen.mazeHeight, cellSize);
    if spawn.ClearCell? {
      OpenCellAwayFromEdge(gen, spawn.x, spawn.y);
    }
  }
}
