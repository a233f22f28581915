/** The turn rules of Clockwork Crypts: a player on a 12x12 grid of tiles, gears whose
    phase turns through 0..3, doors that are open while their gear shows the required
    phase, levers that nudge a gear by one notch, platforms that swap between two
    cells, and treasures.  Every sixth successful action the whole board ticks. */
module Clockwork {
  import opened Wrappers

  const GridSize: int := 12

  /** The tag stored in each grid cell. */
  datatype Tile =
    | EmptyTile | WallTile | PlayerTile | GearTile | DoorTile
    | LeverTile | TreasureTile | MovingPlatformTile | ExitTile

  datatype Direction = Up | Down | Left | Right
  {
    function Dx(): int
    {
      match this
      case Left => -1
      case Right => 1
      case _ => 0
    }

    function Dy(): int
    {
      match this
      case Up => -1
      case Down => 1
      case _ => 0
    }
  }

  /** The order in which the enumeration of directions is iterated. */
  const Directions: seq<Direction> := [Up, Down, Left, Right]

  /** A cell, as (x, y): x is the column and y the row, so the tile is grid[y][x]. */
  type Pos = (int, int)

  predicate InGrid(x: int, y: int)
  {
    0 <= x < GridSize && 0 <= y < GridSize
  }

  // ---------------------------------------------------------------------------
  // Entity records (the dictionaries held in the state's lists)

  datatype GearNode = GearNode(x: int, y: int, phase: int, connections: seq<int>)

  datatype Door = Door(x: int, y: int, requiredPhase: int, gearId: nat, isOpen: bool)

  datatype Lever = Lever(x: int, y: int, targetGearId: nat, isActivated: bool)

  datatype MovingPlatform = MovingPlatform(
    x: int, y: int, targetX: int, targetY: int, gearId: nat, moveOnPhase: int)
  {
    /** The two cells the platform shuttles between. */
    function Ends(): multiset<Pos>
    {
      multiset{(x, y), (targetX, targetY)}
    }

    /** The platform after moving: it stands on its old target and aims at its old cell. */
    function Swapped(): (r: MovingPlatform)
      ensures (r.x, r.y) == (targetX, targetY) && (r.targetX, r.targetY) == (x, y)
      ensures r.Ends() == Ends()
      ensures r.gearId == gearId && r.moveOnPhase == moveOnPhase
    {
      this.(x := targetX, y := targetY, targetX := x, targetY := y)
    }
  }

  datatype Treasure = Treasure(x: int, y: int, value: int, collected: bool)

  function GearPos(g: GearNode): Pos { (g.x, g.y) }
  function DoorPos(d: Door): Pos { (d.x, d.y) }
  function LeverPos(l: Lever): Pos { (l.x, l.y) }
  function TreasurePos(t: Treasure): Pos { (t.x, t.y) }

  // ---------------------------------------------------------------------------
  // Lookups by position

  /** The index of the first record of `items` standing on cell p, if any. */
  function IndexAt<T>(items: seq<T>, pos: T -> Pos, p: Pos): (r: Option<nat>)
    ensures r.Some? ==> r.value < |items| && pos(items[r.value]) == p
    ensures r.Some? ==> forall j :: 0 <= j < r.value ==> pos(items[j]) != p
    ensures r.None? <==> forall j :: 0 <= j < |items| ==> pos(items[j]) != p
  {
    if |items| == 0 then None
    else if pos(items[0]) == p then Some(0)
    else match IndexAt(items[1..], pos, p)
      case None => None
      case Some(k) => Some(k + 1)
  }

  /** A record that shares its cell with no other record is the one found on its cell. */
  lemma IndexAtOwnCell<T>(items: seq<T>, pos: T -> Pos, i: nat)
    requires i < |items|
    requires forall j :: 0 <= j < |items| && j != i ==> pos(items[j]) != pos(items[i])
    ensures IndexAt(items, pos, pos(items[i])) == Some(i)
  {
  }

  /** Scans the records in order and returns the first one on cell p
      (get_door_at, get_lever_at, get_treasure_at and get_gear_at). */
  method FindAt<T>(items: seq<T>, pos: T -> Pos, p: Pos) returns (r: Option<nat>)
    ensures r == IndexAt(items, pos, p)
  {
    var i := 0;
    while i < |items|
      invariant 0 <= i <= |items|
      invariant forall j :: 0 <= j < i ==> pos(items[j]) != p
    {
      if pos(items[i]) == p {
        return Some(i);
      }
      i := i + 1;
    }
    return None;
  }

  // ---------------------------------------------------------------------------
  // Gears, doors and platforms

  /** The phase a gear shows after turning one notch: (phase + 1) % 4.  For the
      positive divisor 4, Python's % and Dafny's % agree, also on negative phases. */
  function NextPhase(phase: int): (r: int)
    ensures 0 <= r < 4
    ensures 0 <= phase < 3 ==> r == phase + 1
    ensures phase == 3 ==> r == 0
    ensures (r - phase - 1) % 4 == 0
  {
    (phase + 1) % 4
  }

  function Advanced(g: GearNode): GearNode
  {
    g.(phase := NextPhase(g.phase))
  }

  /** The gear list after the gear numbered id turned one notch; an id past the end
      of the list turns nothing. */
  function AdvancedAt(gears: seq<GearNode>, id: nat): (r: seq<GearNode>)
    ensures |r| == |gears|
    ensures forall k :: 0 <= k < |gears| && k != id ==> r[k] == gears[k]
    ensures id < |gears| ==> r[id] == gears[id].(phase := NextPhase(gears[id].phase))
  {
    if id < |gears| then gears[id := Advanced(gears[id])] else gears
  }

  /** A door re-derives its flag from its gear; a door whose gear does not exist
      keeps its flag. */
  function Refreshed(d: Door, gears: seq<GearNode>): Door
  {
    if d.gearId < |gears| then d.(isOpen := gears[d.gearId].phase == d.requiredPhase) else d
  }

  /** A platform whose gear shows its phase swaps its two cells. */
  function Moved(p: MovingPlatform, gears: seq<GearNode>): MovingPlatform
  {
    if p.gearId < |gears| && gears[p.gearId].phase == p.moveOnPhase then p.Swapped() else p
  }

  /** A tick never changes a platform's pair of cells, its gear or its phase: the
      platform either stays or swaps its cell with its target. */
  lemma MovedKeepsEnds(p: MovingPlatform, gears: seq<GearNode>)
    ensures Moved(p, gears).Ends() == p.Ends()
    ensures Moved(p, gears).gearId == p.gearId && Moved(p, gears).moveOnPhase == p.moveOnPhase
    ensures Moved(p, gears) == p || Moved(p, gears) == p.Swapped()
  {
  }

  /** Moving twice brings a platform back. */
  lemma SwapInvolution(p: MovingPlatform)
    ensures p.Swapped().Swapped() == p
  {
  }

  /** The phase of a gear after k notches. */
  function PhaseAfter(phase: int, k: nat): int
  {
    if k == 0 then phase else NextPhase(PhaseAfter(phase, k - 1))
  }

  /** After k notches a gear shows (phase + k) mod 4. */
  lemma {:induction false} PhaseAfterIsSum(phase: int, k: nat)
    requires k > 0 || 0 <= phase < 4
    ensures PhaseAfter(phase, k) == (phase + k) % 4
  {
    if k > 1 {
      PhaseAfterIsSum(phase, k - 1);
    }
  }

  /** The number of ticks, 0..3, after which a gear showing phase shows required. */
  function WaitTicks(phase: int, required: int): (r: nat)
    requires 0 <= phase < 4 && 0 <= required < 4
    ensures r < 4
  {
    if phase <= required then required - phase else required - phase + 4
  }

  /** A gear that is only ticked shows every phase within four ticks, so a door whose
      required phase lies in 0..3 opens after at most three more ticks. */
  lemma DoorPhaseComesRound(phase: int, required: int)
    requires 0 <= phase < 4 && 0 <= required < 4
    ensures PhaseAfter(phase, WaitTicks(phase, required)) == required
  {
    var k := WaitTicks(phase, required);
    PhaseAfterIsSum(phase, k);
    if phase <= required {
      assert phase + k == required;
    } else {
      assert phase + k == required + 4;
    }
  }

  /** Four ticks bring a gear back to the phase it showed, so the door opens again
      every fourth tick. */
  lemma PhaseAfterPeriodic(phase: int, k: nat)
    requires 0 <= phase < 4
    ensures PhaseAfter(phase, k + 4) == PhaseAfter(phase, k)
  {
    var x := PhaseAfter(phase, k);
    assert 0 <= x < 4;
    assert PhaseAfter(phase, k + 1) == NextPhase(x);
    assert PhaseAfter(phase, k + 2) == NextPhase(NextPhase(x));
    assert PhaseAfter(phase, k + 3) == NextPhase(NextPhase(NextPhase(x)));
  }

  // ---------------------------------------------------------------------------
  // Scoring and the tick schedule

  /** The bonus for reaching the exit: 100 per move left of the allowance. */
  function LevelBonus(moveStreak: int, maxMoves: int): (r: int)
    ensures r >= 0
    ensures r > 0 <==> moveStreak < maxMoves
    ensures moveStreak <= maxMoves ==> r == 100 * (maxMoves - moveStreak)
  {
    if moveStreak <= maxMoves then 100 * (maxMoves - moveStreak) else 0
  }

  /** A tick fires after the action that brings the action count to a multiple of 6. */
  predicate TickDue(actionCount: int)
  {
    actionCount % 6 == 0
  }

  /** The number of ticks fired by n successful actions, starting from action count a. */
  function TicksDuring(a: int, n: nat): nat
  {
    if n == 0 then 0 else TicksDuring(a, n - 1) + (if TickDue(a + n) then 1 else 0)
  }

  /** n successful actions from action count a fire exactly (a+n)/6 - a/6 ticks: one
      per multiple of 6 passed, so six consecutive actions always fire exactly one. */
  lemma {:induction false} TicksDuringCount(a: int, n: nat)
    ensures TicksDuring(a, n) == (a + n) / 6 - a / 6
  {
    if n > 0 {
      TicksDuringCount(a, n - 1);
    }
  }

  lemma SixActionsOneTick(a: int)
    ensures TicksDuring(a, 6) == 1
  {
    TicksDuringCount(a, 6);
  }

  // ---------------------------------------------------------------------------
  // The state

  class GameState {
    var playerX: int
    var playerY: int
    var tickCount: int
    var actionCount: int
    var score: int
    var keyFragments: int
    var level: int
    var grid: array2<Tile>
    var gearNodes: seq<GearNode>
    var doors: seq<Door>
    var levers: seq<Lever>
    var movingPlatforms: seq<MovingPlatform>
    var treasures: seq<Treasure>
    var levelStartTime: real
    var moveStreak: int
    var maxMovesForBonus: int

    /** Builds a state from one value per field, as GameState(**data) does. */
    constructor (playerX: int, playerY: int, tickCount: int, actionCount: int, score: int,
                 keyFragments: int, level: int, grid: array2<Tile>, gearNodes: seq<GearNode>,
                 doors: seq<Door>, levers: seq<Lever>, movingPlatforms: seq<MovingPlatform>,
                 treasures: seq<Treasure>, levelStartTime: real, moveStreak: int,
                 maxMovesForBonus: int)
      ensures this.playerX == playerX && this.playerY == playerY
      ensures this.tickCount == tickCount && this.actionCount == actionCount
      ensures this.score == score && this.keyFragments == keyFragments && this.level == level
      ensures this.grid == grid && this.gearNodes == gearNodes && this.doors == doors
      ensures this.levers == levers && this.movingPlatforms == movingPlatforms
      ensures this.treasures == treasures && this.levelStartTime == levelStartTime
      ensures this.moveStreak == moveStreak && this.maxMovesForBonus == maxMovesForBonus
    {
      this.playerX := playerX;
      this.playerY := playerY;
      this.tickCount := tickCount;
      this.actionCount := actionCount;
      this.score := score;
      this.keyFragments := keyFragments;
      this.level := level;
      this.grid := grid;
      this.gearNodes := gearNodes;
      this.doors := doors;
      this.levers := levers;
      this.movingPlatforms := movingPlatforms;
      this.treasures := treasures;
      this.levelStartTime := levelStartTime;
      this.moveStreak := moveStreak;
      this.maxMovesForBonus := maxMovesForBonus;
    }

    /** The engine indexes grid[y][x] for every cell of the 12x12 board. */
    ghost predicate Valid()
      reads this
    {
      grid.Length0 == GridSize && grid.Length1 == GridSize
    }

    /** Every gear phase lies in 0..3. */
    ghost predicate PhasesInRange()
      reads this
    {
      forall i :: 0 <= i < |gearNodes| ==> 0 <= gearNodes[i].phase < 4
    }

    /** Every door whose gear exists is open exactly when that gear shows its phase. */
    ghost predicate DoorsAgree()
      reads this
    {
      forall i :: 0 <= i < |doors| && doors[i].gearId < |gearNodes| ==>
        doors[i].isOpen == (gearNodes[doors[i].gearId].phase == doors[i].requiredPhase)
    }

    /** The player stands on the board, on a cell that is not a wall. */
    ghost predicate PlayerOnFloor()
      reads this, grid
      requires Valid()
    {
      InGrid(playerX, playerY) && grid[playerY, playerX] != WallTile
    }

    /** The cell one step from the player in direction d. */
    ghost function Target(d: Direction): Pos
      reads this
    {
      (playerX + d.Dx(), playerY + d.Dy())
    }

    /** The tag of the cell one step from the player, if that cell is on the board. */
    ghost function TileToward(d: Direction): Option<Tile>
      reads this, grid
      requires Valid()
    {
      var (x, y) := Target(d);
      if InGrid(x, y) then Some(grid[y, x]) else None
    }

    /** The checks made before a move: on the board, not a wall, and not a door unless
        the first door record on that cell is open. */
    method Passable(p: Pos) returns (ok: bool)
      requires Valid()
      ensures ok == CanEnter(p)
    {
      var (x, y) := p;
      if x < 0 || x >= GridSize || y < 0 || y >= GridSize {
        return false;
      }
      var targetTile := grid[y, x];
      if targetTile == WallTile {
        return false;
      } else if targetTile == DoorTile {
        var door := FindAt(doors, DoorPos, p);
        if door.None? || !doors[door.value].isOpen {
          return false;
        }
      }
      return true;
    }

    /** Puts the player on p and, when p holds an uncollected treasure, collects it:
        the record is marked, its value and one key fragment are credited, and the cell
        becomes empty. */
    method Enter(p: Pos)
      requires Valid() && InGrid(p.0, p.1) && grid[p.1, p.0] != WallTile
      modifies this, grid
      ensures Valid() && (playerX, playerY) == p && PlayerOnFloor()
      ensures unchanged(this`tickCount, this`actionCount, this`level, this`gearNodes, this`doors, this`levers)
      ensures unchanged(this`movingPlatforms, this`levelStartTime, this`moveStreak, this`maxMovesForBonus, this`grid)
      ensures old(PickupAt(p)).None? ==>
        treasures == old(treasures) && score == old(score) && keyFragments == old(keyFragments)
        && unchanged(grid)
      ensures old(PickupAt(p)).Some? ==>
        var i := old(PickupAt(p)).value;
        && treasures == old(treasures)[i := old(treasures[i]).(collected := true)]
        && score == old(score) + old(treasures[i].value)
        && keyFragments == old(keyFragments) + 1
        && forall y, x :: 0 <= y < GridSize && 0 <= x < GridSize ==>
             grid[y, x] == if (x, y) == p then EmptyTile else old(grid[y, x])
    {
      ghost var pick := PickupAt(p);
      var (x, y) := p;
      var targetTile := grid[y, x];
      playerX := x;
      playerY := y;
      assert PickupAt(p) == pick;
      if targetTile == TreasureTile {
        CollectTreasure(p);
      }
    }

    /** The treasure check on entering p, a cell tagged as treasure: the first treasure
        record on p, when it is not yet collected, is marked, credited, and its cell
        emptied. */
    method CollectTreasure(p: Pos)
      requires Valid() && InGrid(p.0, p.1) && grid[p.1, p.0] == TreasureTile
      modifies this`treasures, this`score, this`keyFragments, grid
      ensures old(PickupAt(p)).None? ==>
        treasures == old(treasures) && score == old(score) && keyFragments == old(keyFragments)
        && unchanged(grid)
      ensures old(PickupAt(p)).Some? ==>
        var i := old(PickupAt(p)).value;
        && treasures == old(treasures)[i := old(treasures[i]).(collected := true)]
        && score == old(score) + old(treasures[i].value)
        && keyFragments == old(keyFragments) + 1
        && forall y, x :: 0 <= y < GridSize && 0 <= x < GridSize ==>
             grid[y, x] == if (x, y) == p then EmptyTile else old(grid[y, x])
    {
      var (x, y) := p;
      var treasure := FindAt(treasures, TreasurePos, p);
      if treasure.Some? && !treasures[treasure.value].collected {
        var t := treasures[treasure.value];
        treasures := treasures[treasure.value := t.(collected := true)];
        score := score + t.value;
        keyFragments := keyFragments + 1;
        grid[y, x] := EmptyTile;
      }
    }

    /** The player may enter p: it is on the board, not a wall, and if it is a door
        then the first door record on p exists and is open. */
    ghost predicate CanEnter(p: Pos)
      reads this, grid
      requires Valid()
    {
      InGrid(p.0, p.1) && grid[p.1, p.0] != WallTile &&
      (grid[p.1, p.0] == DoorTile ==>
        match IndexAt(doors, DoorPos, p)
        case Some(i) => doors[i].isOpen
        case None => false)
    }

    /** The treasure record collected on entering p: p is tagged as treasure and the
        first treasure record on p is not yet collected. */
    ghost function PickupAt(p: Pos): (r: Option<nat>)
      reads this, grid
      requires Valid()
      ensures r.Some? ==> r.value < |treasures| && !treasures[r.value].collected
    {
      if InGrid(p.0, p.1) && grid[p.1, p.0] == TreasureTile then
        match IndexAt(treasures, TreasurePos, p)
        case Some(i) => if !treasures[i].collected then Some(i) else None
        case None => None
      else None
    }

    /** The lever record operated through direction d: the neighbouring cell is on the
        board and tagged as lever, and a lever record stands on it. */
    ghost function LeverToward(d: Direction): (r: Option<nat>)
      reads this, grid
      requires Valid()
      ensures r.Some? ==> r.value < |levers|
    {
      var (x, y) := Target(d);
      if InGrid(x, y) && grid[y, x] == LeverTile then IndexAt(levers, LeverPos, (x, y)) else None
    }

    /** The lever operated by the space key: the first one found through the directions
        from Directions[k] on. */
    ghost function FirstAdjacentLever(k: nat): (r: Option<nat>)
      reads this, grid
      requires Valid()
      ensures r.Some? ==> r.value < |levers|
      decreases |Directions| - k
    {
      if k >= |Directions| then None
      else match LeverToward(Directions[k])
        case Some(i) => Some(i)
        case None => FirstAdjacentLever(k + 1)
    }
  }

  // ---------------------------------------------------------------------------
  // The engine

  datatype Key = KeyW | KeyA | KeyS | KeyD | KeySpace | OtherKey

  datatype Event = KeyDown(key: Key) | OtherEvent

  /** The direction bound to a movement key: W up, S down, A left, D right. */
  function MoveKey(k: Key): Option<Direction>
  {
    match k
    case KeyW => Some(Up)
    case KeyS => Some(Down)
    case KeyA => Some(Left)
    case KeyD => Some(Right)
    case _ => None
  }

  /** Whether the action bound to event succeeds in state s: a movement key when the
      cell in its direction can be entered, the space key always, anything else never. */
  ghost predicate Succeeds(s: GameState, event: Event)
    reads s, s.grid
    requires s.Valid()
  {
    match event
    case KeyDown(k) =>
      if MoveKey(k).Some? then s.CanEnter(s.Target(MoveKey(k).value)) else k == KeySpace
    case OtherEvent => false
  }

  /** Looks up, down, left and right of the player, in that order, for a cell tagged as
      lever with a lever record on it, and returns the first such record. */
  method AdjacentLever(s: GameState) returns (r: Option<nat>)
    requires s.Valid()
    ensures r == s.FirstAdjacentLever(0)
    ensures r.Some? ==> r.value < |s.levers|
  {
    for k := 0 to |Directions|
      invariant s.FirstAdjacentLever(0) == s.FirstAdjacentLever(k)
    {
      var d := Directions[k];
      var checkX := s.playerX + d.Dx();
      var checkY := s.playerY + d.Dy();
      assert (checkX, checkY) == s.Target(d);
      if 0 <= checkX < GridSize && 0 <= checkY < GridSize && s.grid[checkY, checkX] == LeverTile {
        var lever := FindAt(s.levers, LeverPos, (checkX, checkY));
        assert lever == s.LeverToward(d);
        if lever.Some? {
          return lever;
        }
      } else {
        assert s.LeverToward(d).None?;
      }
    }
    return None;
  }

  /** Turns every gear one notch, in list order. */
  method AdvanceAll(gears: seq<GearNode>) returns (r: seq<GearNode>)
    ensures |r| == |gears|
    ensures forall k :: 0 <= k < |r| ==> r[k] == gears[k].(phase := NextPhase(gears[k].phase))
  {
    r := gears;
    var i := 0;
    while i < |r|
      invariant 0 <= i <= |r| == |gears|
      invariant forall k :: 0 <= k < i ==> r[k] == Advanced(gears[k])
      invariant forall k :: i <= k < |r| ==> r[k] == gears[k]
    {
      r := r[i := Advanced(r[i])];
      i := i + 1;
    }
  }

  /** Re-derives every door's open flag from its gear, when that gear exists. */
  method RefreshAll(doors: seq<Door>, gears: seq<GearNode>) returns (r: seq<Door>)
    ensures |r| == |doors|
    ensures forall k :: 0 <= k < |r| ==> r[k] == Refreshed(doors[k], gears)
  {
    r := doors;
    var i := 0;
    while i < |r|
      invariant 0 <= i <= |r| == |doors|
      invariant forall k :: 0 <= k < i ==> r[k] == Refreshed(doors[k], gears)
      invariant forall k :: i <= k < |r| ==> r[k] == doors[k]
    {
      if r[i].gearId < |gears| {
        var gear := gears[r[i].gearId];
        r := r[i := r[i].(isOpen := gear.phase == r[i].requiredPhase)];
      }
      i := i + 1;
    }
  }

  /** Swaps every platform whose gear shows its phase. */
  method MoveAll(platforms: seq<MovingPlatform>, gears: seq<GearNode>) returns (r: seq<MovingPlatform>)
    ensures |r| == |platforms|
    ensures forall k :: 0 <= k < |r| ==> r[k] == Moved(platforms[k], gears)
  {
    r := platforms;
    var i := 0;
    while i < |r|
      invariant 0 <= i <= |r| == |platforms|
      invariant forall k :: 0 <= k < i ==> r[k] == Moved(platforms[k], gears)
      invariant forall k :: i <= k < |r| ==> r[k] == platforms[k]
    {
      var platform := r[i];
      if platform.gearId < |gears| {
        var gear := gears[platform.gearId];
        if gear.phase == platform.moveOnPhase {
          r := r[i := platform.Swapped()];
        }
      }
      assert r[i] == Moved(platforms[i], gears);
      i := i + 1;
    }
  }

  class ClockworkCrypts {
    var gameState: GameState
    /** Number of state snapshots written so far; the files themselves are not modelled. */
    var stepCounter: int

    ghost predicate Valid()
      reads this, gameState
    {
      gameState.Valid()
    }

    constructor (initial: GameState)
      requires initial.Valid()
      ensures Valid() && gameState == initial && stepCounter == 0
    {
      gameState := initial;
      stepCounter := 0;
    }

    /** One key press.  A successful action counts towards the action counter and the
        move streak, fires a tick when the new action count is a multiple of 6, and is
        saved.  nextLevel stands for the freshly generated level that replaces the
        state when the player reaches the exit. */
    method HandleInput(event: Event, nextLevel: GameState) returns (moved: bool)
      requires Valid() && nextLevel.Valid() && nextLevel != gameState
      modifies this, gameState, gameState.grid, nextLevel
      ensures Valid()
      ensures moved == old(Succeeds(gameState, event))
      ensures !moved ==> gameState == old(gameState) && unchanged(gameState) && unchanged(gameState.grid)
      ensures stepCounter == old(stepCounter) + (if moved then 1 else 0)
      ensures moved ==> gameState == old(gameState) || gameState == nextLevel
      ensures moved && gameState == old(gameState) ==>
        && gameState.actionCount == old(gameState.actionCount) + 1
        && gameState.moveStreak == old(gameState.moveStreak) + 1
        && gameState.tickCount == old(gameState.tickCount) + (if TickDue(gameState.actionCount) then 1 else 0)
      ensures moved && gameState == nextLevel ==>
        && gameState.actionCount == old(nextLevel.actionCount) + 1
        && gameState.moveStreak == old(nextLevel.moveStreak) + 1
        && gameState.tickCount == old(nextLevel.tickCount) + (if TickDue(gameState.actionCount) then 1 else 0)
      ensures moved && TickDue(gameState.actionCount) ==> gameState.PhasesInRange() && gameState.DoorsAgree()
    {
      moved := false;
      if event.KeyDown? && MoveKey(event.key).Some? {
        moved := TryMove(MoveKey(event.key).value, nextLevel);
      } else if event == KeyDown(KeySpace) {
        moved := OperateAdjacentOrWait();
      }
      if moved {
        gameState.actionCount := gameState.actionCount + 1;
        gameState.moveStreak := gameState.moveStreak + 1;
        if gameState.actionCount % 6 == 0 {
          TickGears();
        }
        stepCounter := stepCounter + 1;
      }
    }

    /** Moves the player one cell in direction d when the cell is on the board, not a
        wall, and not a closed door; collects an uncollected treasure there; completes
        the level on the exit. */
    method TryMove(direction: Direction, nextLevel: GameState) returns (moved: bool)
      requires Valid() && nextLevel.Valid() && nextLevel != gameState
      modifies this, gameState, gameState.grid
      ensures Valid() && stepCounter == old(stepCounter)
      ensures moved == old(gameState.CanEnter(gameState.Target(direction)))
      ensures !moved ==> gameState == old(gameState) && unchanged(gameState) && unchanged(gameState.grid)
      ensures moved ==>
        (old(gameState).playerX, old(gameState).playerY) == old(gameState.Target(direction))
      // Reaching the exit: the bonus goes to the state being left, which is then replaced.
      ensures moved && old(gameState.TileToward(direction)) == Some(ExitTile) ==>
        var s := old(gameState);
        && gameState == nextLevel && unchanged(nextLevel)
        && s.score == old(s.score) + LevelBonus(old(s.moveStreak), old(s.maxMovesForBonus))
        && s.keyFragments == old(s.keyFragments) + (if old(s.moveStreak <= s.maxMovesForBonus) then 2 else 0)
        && s.level == old(s.level) + 1
        && s.moveStreak == 0
      // Any other cell: the same state, with the treasure there collected.
      ensures moved && old(gameState.TileToward(direction)) != Some(ExitTile) ==>
        var s := old(gameState);
        var t := old(gameState.Target(direction));
        var pick := old(gameState.PickupAt(t));
        && gameState == s
        && s.PlayerOnFloor()
        && unchanged(s`tickCount, s`actionCount, s`level, s`gearNodes, s`doors, s`levers)
        && unchanged(s`movingPlatforms, s`levelStartTime, s`moveStreak, s`maxMovesForBonus, s`grid)
        && (pick.None? ==>
              s.treasures == old(s.treasures) && s.score == old(s.score)
              && s.keyFragments == old(s.keyFragments) && unchanged(s.grid))
        && (pick.Some? ==>
              var i := pick.value;
              && s.treasures == old(s.treasures)[i := old(s.treasures[i]).(collected := true)]
              && s.score == old(s.score) + old(s.treasures[i].value)
              && s.keyFragments == old(s.keyFragments) + 1
              && forall y, x :: 0 <= y < GridSize && 0 <= x < GridSize ==>
                   s.grid[y, x] == if (x, y) == t then EmptyTile else old(s.grid[y, x]))
    {
      var s := gameState;
      var newX := s.playerX + direction.Dx();
      var newY := s.playerY + direction.Dy();
      var passable := s.Passable((newX, newY));
      if !passable {
        return false;
      }
      var targetTile := s.grid[newY, newX];
      s.Enter((newX, newY));
      if targetTile == ExitTile {
        CompleteLevel(nextLevel);
      }
      return true;
    }

    /** Space: toggles the first lever found next to the player (looking up, down, left,
        right) and turns its target gear one notch; with no lever it only waits.  Either
        way the action succeeds. */
    method OperateAdjacentOrWait() returns (acted: bool)
      requires Valid()
      modifies gameState
      ensures Valid() && acted
      ensures old(gameState.FirstAdjacentLever(0)).None? ==> unchanged(gameState)
      ensures old(gameState.FirstAdjacentLever(0)).Some? ==>
        var s := gameState;
        var i := old(s.FirstAdjacentLever(0)).value;
        && s.levers == old(s.levers)[i := old(s.levers[i]).(isActivated := !old(s.levers[i].isActivated))]
        && s.gearNodes == AdvancedAt(old(s.gearNodes), old(s.levers[i].targetGearId))
        && unchanged(s`playerX, s`playerY, s`tickCount, s`actionCount, s`score, s`keyFragments)
        && unchanged(s`level, s`grid, s`doors, s`movingPlatforms, s`treasures)
        && unchanged(s`levelStartTime, s`moveStreak, s`maxMovesForBonus)
      ensures old(gameState.PhasesInRange()) ==> gameState.PhasesInRange()
    {
      var s := gameState;
      var lever := AdjacentLever(s);
      if lever.Some? {
        var i := lever.value;
        s.levers := s.levers[i := s.levers[i].(isActivated := !s.levers[i].isActivated)];
        var id := s.levers[i].targetGearId;
        if id < |s.gearNodes| {
          s.gearNodes := s.gearNodes[id := Advanced(s.gearNodes[id])];
        }
      }
      return true;
    }

    /** The tick: every gear turns one notch, then every door re-derives its flag from
        its gear and every platform whose gear shows its phase swaps cells. */
    method TickGears()
      requires Valid()
      modifies gameState
      ensures Valid()
      ensures var s := gameState;
        && s.tickCount == old(s.tickCount) + 1
        && |s.gearNodes| == |old(s.gearNodes)|
        && (forall i :: 0 <= i < |s.gearNodes| ==> s.gearNodes[i] == Advanced(old(s.gearNodes[i])))
        && |s.doors| == |old(s.doors)|
        && (forall i :: 0 <= i < |s.doors| ==> s.doors[i] == Refreshed(old(s.doors[i]), s.gearNodes))
        && |s.movingPlatforms| == |old(s.movingPlatforms)|
        && (forall i :: 0 <= i < |s.movingPlatforms| ==>
              s.movingPlatforms[i] == Moved(old(s.movingPlatforms[i]), s.gearNodes))
        && unchanged(s`playerX, s`playerY, s`actionCount, s`score, s`keyFragments, s`level, s`grid)
        && unchanged(s`levers, s`treasures, s`levelStartTime, s`moveStreak, s`maxMovesForBonus)
      ensures gameState.PhasesInRange() && gameState.DoorsAgree()
    {
      var s := gameState;
      s.tickCount := s.tickCount + 1;

      var gears := AdvanceAll(s.gearNodes);
      s.gearNodes := gears;
      var doors := RefreshAll(s.doors, gears);
      s.doors := doors;
      var platforms := MoveAll(s.movingPlatforms, gears);
      s.movingPlatforms := platforms;
    }

    /** Level completion: the bonus, two key fragments, the level number and the move
        streak are written to the current state, which is then replaced by the new
        level.  (The source then assigns the new state's level to itself, which has no
        effect.) */
    method CompleteLevel(nextLevel: GameState)
      requires Valid() && nextLevel.Valid() && nextLevel != gameState
      modifies this, gameState
      ensures Valid() && gameState == nextLevel && unchanged(nextLevel)
      ensures stepCounter == old(stepCounter)
      ensures var s := old(gameState);
        && s.score == old(s.score) + LevelBonus(old(s.moveStreak), old(s.maxMovesForBonus))
        && s.keyFragments == old(s.keyFragments) + (if old(s.moveStreak <= s.maxMovesForBonus) then 2 else 0)
        && s.level == old(s.level) + 1
        && s.moveStreak == 0
        && unchanged(s`playerX, s`playerY, s`tickCount, s`actionCount, s`grid, s`gearNodes)
        && unchanged(s`doors, s`levers, s`movingPlatforms, s`treasures, s`levelStartTime, s`maxMovesForBonus)
    {
      var s := gameState;
      if s.moveStreak <= s.maxMovesForBonus {
        var bonus := 100 * (s.maxMovesForBonus - s.moveStreak);
        s.score := s.score + bonus;
        s.keyFragments := s.keyFragments + 2;
      }
      s.level := s.level + 1;
      s.moveStreak := 0;
      gameState := nextLevel;
    }
  }
}
