/** Turning a carved grid into cell objects (Assets/Scripts/MazeRenderer.cs,
    GenerateMaze): one object per cell, placed on the floor grid, with four
    wall flags derived from the two walls the cell stores and from its
    position on the border. */
module MazeRenderer {
  import opened Engine
  import opened MazeGenerator

  /** The flags handed to MazeCellObject.Init, in its parameter order. */
  datatype WallFlags = WallFlags(top: bool, bottom: bool, right: bool, left: bool)

  /** An instantiated cell object: where it stands and which walls it shows. */
  datatype CellObject = CellObject(position: Vec3, walls: WallFlags)

  /** Where the object of cell (x, y) sits in the list GenerateMaze builds,
      cells being instantiated with x outer and y inner. */
  function Slot(mazeHeight: nat, x: nat, y: nat): nat {
    x * mazeHeight + y
  }

  lemma SlotInRange(mazeWidth: nat, mazeHeight: nat, x: nat, y: nat)
    requires x < mazeWidth && y < mazeHeight
    ensures Slot(mazeHeight, x, y) < mazeWidth * mazeHeight
    ensures Slot(mazeHeight, x, y) < (x + 1) * mazeHeight
  {
    assert (x + 1) * mazeHeight == x * mazeHeight + mazeHeight;
    assert x + 1 <= mazeWidth;
    assert (x + 1) * mazeHeight <= mazeWidth * mazeHeight by {
      assert mazeWidth * mazeHeight == (x + 1) * mazeHeight + (mazeWidth - x - 1) * mazeHeight;
    }
  }

  /** The object instantiated for cell (x, y). */
  function ObjectAt(cells: seq<CellObject>, mazeHeight: nat, x: nat, y: nat): CellObject
    requires y < mazeHeight && Slot(mazeHeight, x, y) < |cells|
  {
    cells[Slot(mazeHeight, x, y)]
  }

  /** The object at slot (x, y) is the one for cell (x, y): placed at
      (x * cellSize, 0, y * cellSize), showing the stored top and left walls,
      a right wall exactly in the last column and a bottom wall exactly in
      the first row. */
  ghost predicate RenderedAt(maze: array2<MazeCell>, cellSize: real, cells: seq<CellObject>, x: nat, y: nat)
    reads maze
    requires x < maze.Length0 && y < maze.Length1 && Slot(maze.Length1, x, y) < |cells|
  {
    var c := ObjectAt(cells, maze.Length1, x, y);
    c.position == Vec3(x as real * cellSize, 0.0, y as real * cellSize) &&
    c.walls.top == maze[x, y].topWall &&
    c.walls.left == maze[x, y].leftWall &&
    (c.walls.right <==> x == maze.Length0 - 1) &&
    (c.walls.bottom <==> y == 0)
  }

  ghost predicate Rendered(maze: array2<MazeCell>, cellSize: real, cells: seq<CellObject>)
    reads maze
  {
    |cells| == maze.Length0 * maze.Length1 &&
    forall x: nat, y: nat :: x < maze.Length0 && y < maze.Length1 ==>
      Slot(maze.Length1, x, y) < |cells| && RenderedAt(maze, cellSize, cells, x, y)
  }

  /** The nested loop of GenerateMaze: one object per cell of the
      mazeWidth x mazeHeight grid, in scan order. */
  method PlaceCells(maze: array2<MazeCell>, mazeWidth: nat, mazeHeight: nat, cellSize: real)
    returns (cells: seq<CellObject>)
    requires maze.Length0 == mazeWidth && maze.Length1 == mazeHeight
    ensures Rendered(maze, cellSize, cells)
  {
    cells := [];
    for x := 0 to mazeWidth
      invariant |cells| == x * mazeHeight
      invariant forall i: nat, j: nat :: i < x && j < mazeHeight ==>
        Slot(mazeHeight, i, j) < |cells| && RenderedAt(maze, cellSize, cells, i, j)
    {
      for y := 0 to mazeHeight
        invariant |cells| == x * mazeHeight + y
        invariant forall i: nat, j: nat :: i < x && j < mazeHeight ==>
          Slot(mazeHeight, i, j) < |cells| && RenderedAt(maze, cellSize, cells, i, j)
        invariant forall j: nat :: j < y ==> Slot(mazeHeight, x, j) < |cells| && RenderedAt(maze, cellSize, cells, x, j)
      {
        var position := Vec3(x as real * cellSize, 0.0, y as real * cellSize);
        var top := maze[x, y].topWall;
        var left := maze[x, y].leftWall;
        var right := x == mazeWidth - 1;
        var bottom := y == 0;
        cells := cells + [CellObject(position, WallFlags(top, bottom, right, left))];
      }
    }
  }

  /** A wall is drawn between two neighbouring cells when either of their
      objects shows the wall on that side. */
  ghost predicate WallDrawn(maze: array2<MazeCell>, cells: seq<CellObject>, a: Vec2, b: Vec2)
    requires 0 <= a.x < maze.Length0 && 0 <= a.y < maze.Length1
    requires 0 <= b.x < maze.Length0 && 0 <= b.y < maze.Length1
    requires |cells| == maze.Length0 * maze.Length1
  {
    SlotInRange(maze.Length0, maze.Length1, a.x, a.y);
    SlotInRange(maze.Length0, maze.Length1, b.x, b.y);
    var ca := ObjectAt(cells, maze.Length1, a.x, a.y).walls;
    var cb := ObjectAt(cells, maze.Length1, b.x, b.y).walls;
    if b == Vec2(a.x + 1, a.y) then ca.right || cb.left
    else if b == Vec2(a.x, a.y + 1) then ca.top || cb.bottom
    else false
  }

  /** Between two cells of the grid, the rendered maze shows a wall exactly
      where the generator's store still holds the flag that BreakWalls would
      clear for that pair: every inner wall is drawn by one object only. */
  lemma InnerWallsMatchStore(maze: array2<MazeCell>, cellSize: real, cells: seq<CellObject>, a: Vec2, b: Vec2)
    requires Rendered(maze, cellSize, cells)
    requires 0 <= a.x < maze.Length0 && 0 <= a.y < maze.Length1
    requires b == Vec2(a.x + 1, a.y) || b == Vec2(a.x, a.y + 1)
    requires 0 <= b.x < maze.Length0 && 0 <= b.y < maze.Length1
    ensures WallBetween(a, b).Some?
    ensures var (owner, wall) := WallBetween(a, b).value;
      WallDrawn(maze, cells, a, b) <==>
        if wall == LeftWall then maze[owner.x, owner.y].leftWall else maze[owner.x, owner.y].topWall
  {
    assert RenderedAt(maze, cellSize, cells, a.x, a.y);
    assert RenderedAt(maze, cellSize, cells, b.x, b.y);
  }

  /** In a carved grid the outer border is closed: the generator never
      clears a left wall in the first column or a top wall in the last row,
      and the renderer adds the right and bottom edges itself. */
  lemma BorderClosed(gen: MazeGenerator, cellSize: real, cells: seq<CellObject>, x: nat, y: nat)
    requires gen.Shaped() && gen.Carved() && Rendered(gen.maze, cellSize, cells)
    requires x < gen.mazeWidth && y < gen.mazeHeight
    ensures Slot(gen.mazeHeight, x, y) < |cells|
    ensures var w := ObjectAt(cells, gen.mazeHeight, x, y).walls;
      (x == 0 ==> w.left) && (x == gen.mazeWidth - 1 ==> w.right) &&
      (y == 0 ==> w.bottom) && (y == gen.mazeHeight - 1 ==> w.top)
  {
    assert gen.CarvedAt(x, y);
    assert RenderedAt(gen.maze, cellSize, cells, x, y);
  }

  /** MazeRenderer.GenerateMaze: carve a maze and instantiate its cells. */
  method GenerateMaze(gen: MazeGenerator, cellSize: real, rolls: nat -> seq<nat>)
    returns (cells: seq<CellObject>)
    requires StartFits(gen.mazeWidth, gen.mazeHeight, gen.startX, gen.startY)
    requires forall n :: IsDraws(rolls(n), 4)
    modifies gen
    ensures fresh(gen.maze) && gen.Shaped() && gen.Coordinates() && gen.Carved()
    ensures forall i, j :: 0 <= i < gen.mazeWidth && 0 <= j < gen.mazeHeight ==>
      Grown(MazeCell(i, j, false, true, true), gen.maze[i, j])
    ensures Rendered(gen.maze, cellSize, cells)
  {
    var maze := gen.GetMaze(rolls);
    cells := PlaceCells(maze, gen.mazeWidth, gen.mazeHeight, cellSize);
  }
}
