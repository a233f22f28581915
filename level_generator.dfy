/** The fixed starting level of Clockwork Crypts: a walled 12x12 board with four gears,
    three gated doors, two levers, one moving platform, five treasures and an exit. The
    grid is built in layers, each written over the one before it: border, internal
    walls, gears, doors, levers, treasures, exit. */
module LevelGenerator {
  import opened Wrappers
  import opened Clockwork

  const WallPositions: seq<Pos> := [(3, 5), (5, 3), (7, 8), (8, 4), (4, 9), (6, 2), (2, 8)]

  const StartGears: seq<GearNode> := [
    GearNode(4, 4, 0, [1, 2]),
    GearNode(8, 4, 1, [0, 2]),
    GearNode(6, 8, 2, [0, 1]),
    GearNode(2, 7, 3, [])
  ]

  const StartDoors: seq<Door> := [
    Door(6, 4, 2, 0, false),
    Door(8, 6, 0, 1, false),
    Door(4, 8, 1, 2, false)
  ]

  const StartLevers: seq<Lever> := [
    Lever(2, 4, 0, false),
    Lever(9, 7, 1, false)
  ]

  const StartPlatforms: seq<MovingPlatform> := [MovingPlatform(5, 6, 7, 6, 2, 1)]

  const StartTreasures: seq<Treasure> := [
    Treasure(3, 2, 25, false),
    Treasure(9, 2, 35, false),
    Treasure(2, 9, 40, false),
    Treasure(9, 9, 30, false),
    Treasure(6, 2, 50, false)
  ]

  const ExitPos: Pos := (10, 10)

  const StartMaxMoves: int := 35

  /** The cells the records of each kind stand on, in list order. */
  const TreasureCells: seq<Pos> := [(3, 2), (9, 2), (2, 9), (9, 9), (6, 2)]
  const LeverCells: seq<Pos> := [(2, 4), (9, 7)]
  const DoorCells: seq<Pos> := [(6, 4), (8, 6), (4, 8)]
  const GearCells: seq<Pos> := [(4, 4), (8, 4), (6, 8), (2, 7)]

  /** The cells on which a list of records stands. */
  function Cells<T>(items: seq<T>, pos: T -> Pos): (r: seq<Pos>)
    ensures |r| == |items|
  {
    if |items| == 0 then [] else [pos(items[0])] + Cells(items[1..], pos)
  }

  predicate OnBorder(x: int, y: int)
  {
    x == 0 || x == GridSize - 1 || y == 0 || y == GridSize - 1
  }

  /** Internal walls are only placed strictly inside the border. */
  predicate Interior(x: int, y: int)
  {
    1 <= x < GridSize - 1 && 1 <= y < GridSize - 1
  }

  /** The tag of cell (x, y) in the starting level: the last layer that writes the
      cell decides it. */
  function StartTile(x: int, y: int): Tile
  {
    if (x, y) == ExitPos then ExitTile else TreasureLayer(x, y)
  }

  function TreasureLayer(x: int, y: int): Tile
  {
    if (x, y) in TreasureCells then TreasureTile else LeverLayer(x, y)
  }

  function LeverLayer(x: int, y: int): Tile
  {
    if (x, y) in LeverCells then LeverTile else DoorLayer(x, y)
  }

  function DoorLayer(x: int, y: int): Tile
  {
    if (x, y) in DoorCells then DoorTile else GearLayer(x, y)
  }

  function GearLayer(x: int, y: int): Tile
  {
    if (x, y) in GearCells then GearTile else WallLayer(x, y)
  }

  function WallLayer(x: int, y: int): Tile
  {
    if (x, y) in WallPositions && Interior(x, y) then WallTile else BorderLayer(x, y)
  }

  function BorderLayer(x: int, y: int): Tile
  {
    if OnBorder(x, y) then WallTile else EmptyTile
  }

  /** Writes tag into every listed cell (only the interior ones when interiorOnly) of a
      board that shows the layers below. */
  method Stamp(grid: array2<Tile>, cells: seq<Pos>, tag: Tile, interiorOnly: bool,
               ghost below: (int, int) -> Tile)
    requires grid.Length0 == GridSize && grid.Length1 == GridSize
    requires !interiorOnly ==> forall i :: 0 <= i < |cells| ==> InGrid(cells[i].0, cells[i].1)
    requires forall y, x :: 0 <= y < GridSize && 0 <= x < GridSize ==> grid[y, x] == below(x, y)
    modifies grid
    ensures forall y, x :: 0 <= y < GridSize && 0 <= x < GridSize ==>
      grid[y, x] == if (x, y) in cells && (!interiorOnly || Interior(x, y)) then tag else below(x, y)
  {
    for k := 0 to |cells|
      invariant forall y, x :: 0 <= y < GridSize && 0 <= x < GridSize ==>
        grid[y, x] == if (x, y) in cells[..k] && (!interiorOnly || Interior(x, y)) then tag else below(x, y)
    {
      var (x, y) := cells[k];
      if !interiorOnly || (1 <= x < GridSize - 1 && 1 <= y < GridSize - 1) {
        grid[y, x] := tag;
      }
      assert cells[..k + 1] == cells[..k] + [cells[k]];
    }
    assert cells[..|cells|] == cells;
  }

  /** An empty board whose outermost rows and columns are walls. */
  method BorderedGrid() returns (grid: array2<Tile>)
    ensures fresh(grid)
    ensures grid.Length0 == GridSize && grid.Length1 == GridSize
    ensures forall y, x :: 0 <= y < GridSize && 0 <= x < GridSize ==> grid[y, x] == BorderLayer(x, y)
  {
    grid := new Tile[GridSize, GridSize]((y, x) => EmptyTile);
    for i := 0 to GridSize
      invariant forall y, x :: 0 <= y < GridSize && 0 <= x < GridSize ==>
        grid[y, x] == if ((y == 0 || y == GridSize - 1) && x < i) || ((x == 0 || x == GridSize - 1) && y < i)
                      then WallTile else EmptyTile
    {
      grid[0, i] := WallTile;
      grid[GridSize - 1, i] := WallTile;
      grid[i, 0] := WallTile;
      grid[i, GridSize - 1] := WallTile;
    }
  }

  /** The bordered board with the internal walls and the gears placed. */
  method WalledGrid() returns (grid: array2<Tile>)
    ensures fresh(grid)
    ensures grid.Length0 == GridSize && grid.Length1 == GridSize
    ensures forall y, x :: 0 <= y < GridSize && 0 <= x < GridSize ==> grid[y, x] == GearLayer(x, y)
  {
    grid := BorderedGrid();
    Stamp(grid, WallPositions, WallTile, true, BorderLayer);
    assert forall y, x :: 0 <= y < GridSize && 0 <= x < GridSize ==> grid[y, x] == WallLayer(x, y);
    Stamp(grid, GearCells, GearTile, false, WallLayer);
  }

  /** Places the doors and the levers over the gears. */
  method PlaceDoorsAndLevers(grid: array2<Tile>)
    requires grid.Length0 == GridSize && grid.Length1 == GridSize
    requires forall y, x :: 0 <= y < GridSize && 0 <= x < GridSize ==> grid[y, x] == GearLayer(x, y)
    modifies grid
    ensures forall y, x :: 0 <= y < GridSize && 0 <= x < GridSize ==> grid[y, x] == LeverLayer(x, y)
  {
    Stamp(grid, DoorCells, DoorTile, false, GearLayer);
    assert forall y, x :: 0 <= y < GridSize && 0 <= x < GridSize ==> grid[y, x] == DoorLayer(x, y);
    Stamp(grid, LeverCells, LeverTile, false, DoorLayer);
  }

  /** Places the treasures and the exit over the levers. */
  method PlaceTreasuresAndExit(grid: array2<Tile>)
    requires grid.Length0 == GridSize && grid.Length1 == GridSize
    requires forall y, x :: 0 <= y < GridSize && 0 <= x < GridSize ==> grid[y, x] == LeverLayer(x, y)
    modifies grid
    ensures forall y, x :: 0 <= y < GridSize && 0 <= x < GridSize ==> grid[y, x] == StartTile(x, y)
  {
    Stamp(grid, TreasureCells, TreasureTile, false, LeverLayer);
    assert forall y, x :: 0 <= y < GridSize && 0 <= x < GridSize ==> grid[y, x] == TreasureLayer(x, y);
    grid[ExitPos.1, ExitPos.0] := ExitTile;
  }

  /** The starting board, built layer by layer. */
  method BuildGrid() returns (grid: array2<Tile>)
    ensures grid.Length0 == GridSize && grid.Length1 == GridSize
    ensures forall y, x :: 0 <= y < GridSize && 0 <= x < GridSize ==> grid[y, x] == StartTile(x, y)
  {
    grid := WalledGrid();
    PlaceDoorsAndLevers(grid);
    PlaceTreasuresAndExit(grid);
  }

  /** The starting state: the player at (1, 1) on level 1 with nothing scored, the
      board above and the records as listed, with a bonus allowance of 35 moves. */
  method GenerateGameState() returns (state: GameState)
    ensures state.Valid()
    ensures forall y, x :: 0 <= y < GridSize && 0 <= x < GridSize ==> state.grid[y, x] == StartTile(x, y)
    ensures (state.playerX, state.playerY) == (1, 1) && state.level == 1
    ensures state.tickCount == 0 && state.actionCount == 0 && state.moveStreak == 0
    ensures state.score == 0 && state.keyFragments == 0 && state.levelStartTime == 0.0
    ensures state.gearNodes == StartGears && state.doors == StartDoors && state.levers == StartLevers
    ensures state.movingPlatforms == StartPlatforms && state.treasures == StartTreasures
    ensures state.maxMovesForBonus == StartMaxMoves
    ensures state.PlayerOnFloor() && state.PhasesInRange() && state.DoorsAgree()
  {
    var grid := BuildGrid();
    StartPlayerOnFloor();
    StartDoorsAgree();
    state := new GameState(1, 1, 0, 0, 0, 0, 1, grid, StartGears, StartDoors, StartLevers,
                           StartPlatforms, StartTreasures, 0.0, 0, StartMaxMoves);
  }

  // ---------------------------------------------------------------------------
  // Properties of the starting level

  /** The cells the records of the starting level stand on. */
  lemma StartCells()
    ensures Cells(StartTreasures, TreasurePos) == TreasureCells
    ensures Cells(StartLevers, LeverPos) == LeverCells
    ensures Cells(StartDoors, DoorPos) == DoorCells
    ensures Cells(StartGears, GearPos) == GearCells
  {
    assert Cells(StartTreasures[4..], TreasurePos) == [(6, 2)];
    assert Cells(StartTreasures[3..], TreasurePos) == [(9, 9), (6, 2)];
    assert Cells(StartTreasures[2..], TreasurePos) == [(2, 9), (9, 9), (6, 2)];
    assert Cells(StartTreasures[1..], TreasurePos) == [(9, 2), (2, 9), (9, 9), (6, 2)];
    assert Cells(StartLevers[1..], LeverPos) == [(9, 7)];
    assert Cells(StartDoors[2..], DoorPos) == [(4, 8)];
    assert Cells(StartDoors[1..], DoorPos) == [(8, 6), (4, 8)];
    assert Cells(StartGears[3..], GearPos) == [(2, 7)];
    assert Cells(StartGears[2..], GearPos) == [(6, 8), (2, 7)];
    assert Cells(StartGears[1..], GearPos) == [(8, 4), (6, 8), (2, 7)];
  }

  /** The whole border is wall, so the player can never leave the board. */
  lemma StartBorderIsWall(i: int)
    requires 0 <= i < GridSize
    ensures StartTile(i, 0) == WallTile && StartTile(i, GridSize - 1) == WallTile
    ensures StartTile(0, i) == WallTile && StartTile(GridSize - 1, i) == WallTile
  {
  }

  /** The player starts on an empty cell. */
  lemma StartPlayerOnFloor()
    ensures StartTile(1, 1) == EmptyTile
  {
  }

  /** Every record stands on a cell carrying its own tag, so the engine's lookups find
      each door, lever and treasure where the board shows one. */
  lemma StartRecordsTagged()
    ensures forall i :: 0 <= i < |StartGears| ==> StartTile(StartGears[i].x, StartGears[i].y) == GearTile
    ensures forall i :: 0 <= i < |StartDoors| ==> StartTile(StartDoors[i].x, StartDoors[i].y) == DoorTile
    ensures forall i :: 0 <= i < |StartLevers| ==> StartTile(StartLevers[i].x, StartLevers[i].y) == LeverTile
    ensures forall i :: 0 <= i < |StartTreasures| ==>
      StartTile(StartTreasures[i].x, StartTreasures[i].y) == TreasureTile
    ensures StartTile(ExitPos.0, ExitPos.1) == ExitTile
  {
  }

  /** Two listed internal walls are covered by later layers: (8, 4) holds a gear and
      (6, 2) a treasure; the other five are walls.  The platform's two cells stay
      empty on the board: platforms exist only as records. */
  lemma StartWallsAndPlatform()
    ensures StartTile(8, 4) == GearTile && StartTile(6, 2) == TreasureTile
    ensures forall i :: 0 <= i < |WallPositions| && WallPositions[i] !in {(8, 4), (6, 2)} ==>
      StartTile(WallPositions[i].0, WallPositions[i].1) == WallTile
    ensures StartTile(5, 6) == EmptyTile && StartTile(7, 6) == EmptyTile
  {
  }

  /** Every gear reference names an existing gear, and every phase lies in 0..3. */
  lemma StartReferencesValid()
    ensures forall i :: 0 <= i < |StartDoors| ==> StartDoors[i].gearId < |StartGears|
    ensures forall i :: 0 <= i < |StartLevers| ==> StartLevers[i].targetGearId < |StartGears|
    ensures forall i :: 0 <= i < |StartPlatforms| ==> StartPlatforms[i].gearId < |StartGears|
    ensures forall i, j :: 0 <= i < |StartGears| && 0 <= j < |StartGears[i].connections| ==>
      0 <= StartGears[i].connections[j] < |StartGears|
    ensures forall i :: 0 <= i < |StartGears| ==> 0 <= StartGears[i].phase < 4
  {
  }

  /** Every door starts closed, in agreement with its gear, which does not yet show the
      door's required phase. */
  lemma StartDoorsAgree()
    ensures forall i :: 0 <= i < |StartDoors| ==>
      !StartDoors[i].isOpen && StartGears[StartDoors[i].gearId].phase != StartDoors[i].requiredPhase
  {
  }

  /** No two records of one kind share a cell, so the engine's lookup by position finds
      each door, lever and treasure of the starting level under its own index. */
  lemma StartLookups()
    ensures forall i :: 0 <= i < |StartDoors| ==> IndexAt(StartDoors, DoorPos, DoorPos(StartDoors[i])) == Some(i)
    ensures forall i :: 0 <= i < |StartLevers| ==> IndexAt(StartLevers, LeverPos, LeverPos(StartLevers[i])) == Some(i)
    ensures forall i :: 0 <= i < |StartTreasures| ==>
      IndexAt(StartTreasures, TreasurePos, TreasurePos(StartTreasures[i])) == Some(i)
  {
    StartDoorLookups();
    StartLeverLookups();
    StartTreasureLookups();
  }

  lemma StartDoorLookups()
    ensures forall i :: 0 <= i < |StartDoors| ==> IndexAt(StartDoors, DoorPos, DoorPos(StartDoors[i])) == Some(i)
  {
    forall i | 0 <= i < |StartDoors|
      ensures IndexAt(StartDoors, DoorPos, DoorPos(StartDoors[i])) == Some(i)
    {
      IndexAtOwnCell(StartDoors, DoorPos, i);
    }
  }

  lemma StartLeverLookups()
    ensures forall i :: 0 <= i < |StartLevers| ==> IndexAt(StartLevers, LeverPos, LeverPos(StartLevers[i])) == Some(i)
  {
    forall i | 0 <= i < |StartLevers|
      ensures IndexAt(StartLevers, LeverPos, LeverPos(StartLevers[i])) == Some(i)
    {
      IndexAtOwnCell(StartLevers, LeverPos, i);
    }
  }

  lemma StartTreasureLookups()
    ensures forall i :: 0 <= i < |StartTreasures| ==>
      IndexAt(StartTreasures, TreasurePos, TreasurePos(StartTreasures[i])) == Some(i)
  {
    forall i | 0 <= i < |StartTreasures|
      ensures IndexAt(StartTreasures, TreasurePos, TreasurePos(StartTreasures[i])) == Some(i)
    {
      IndexAtOwnCell(StartTreasures, TreasurePos, i);
    }
  }
}
