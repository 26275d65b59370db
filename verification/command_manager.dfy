/**
 * The player's side of the game (src/models/CommandManager.ts): building the
 * priced commands, paying for and writing them onto building floors, and the
 * manual trigger that fires a stomp command outside the turn.
 */
module CommandManager {
  import opened Wrappers
  import opened Types
  import opened Entities
  import opened Buildings
  import opened GameBoard

  // ---------------------------------------------------------------------
  // Command constructors
  // ---------------------------------------------------------------------

  function CreateDirectionCommand(d: Direction): (c: Command)
    ensures c.kind == DirectionCommand && c.cost == 10 && c.direction == Some(d)
  {
    Command(DirectionCommand, CommandPrice(DirectionCommand), Some(d))
  }

  function CreateStompCommand(): (c: Command)
    ensures c.kind == StompCommand && c.cost == 20 && c.direction.None?
  {
    Command(StompCommand, CommandPrice(StompCommand), None)
  }

  function CreatePowerUpCommand(): (c: Command)
    ensures c.kind == PowerUpCommand && c.cost == 30 && c.direction.None?
  {
    Command(PowerUpCommand, CommandPrice(PowerUpCommand), None)
  }

  /** A command is priced by the table when its cost is its type's price. */
  predicate Priced(c: Command) {
    c.cost == CommandPrice(c.kind)
  }

  /** The six commands offered: one per direction, a stomp and a power-up, all at list price. */
  function GetAvailableCommands(): (cs: seq<Command>)
    ensures |cs| == 6
    ensures forall i | 0 <= i < |cs| :: Priced(cs[i]) && (cs[i].kind == DirectionCommand <==> cs[i].direction.Some?)
    ensures Command(StompCommand, 20, None) in cs && Command(PowerUpCommand, 30, None) in cs
  {
    [ CreateDirectionCommand(North), CreateDirectionCommand(South),
      CreateDirectionCommand(East), CreateDirectionCommand(West),
      CreateStompCommand(), CreatePowerUpCommand() ]
  }

  /** Every direction is offered, at the direction price. */
  lemma EveryDirectionIsOffered(d: Direction)
    ensures Command(DirectionCommand, 10, Some(d)) in GetAvailableCommands()
  {
    var cs := GetAvailableCommands();
    match d
    case North => assert cs[0] == Command(DirectionCommand, 10, Some(North));
    case South => assert cs[1] == Command(DirectionCommand, 10, Some(South));
    case East => assert cs[2] == Command(DirectionCommand, 10, Some(East));
    case West => assert cs[3] == Command(DirectionCommand, 10, Some(West));
  }

  function GetCommandCost(t: CommandType): (cost: nat)
    ensures cost == CommandPrice(t)
    ensures forall c | c in GetAvailableCommands() && c.kind == t :: c.cost == cost
  {
    CommandPrice(t)
  }

  // ---------------------------------------------------------------------
  // Placing commands
  // ---------------------------------------------------------------------

  /**
   * Places `c` on floor 0 or 1 of the indexed building `bid`.  Succeeds
   * exactly when the building exists, the floor is 0 or 1, the floor is free
   * and the budget covers the cost; then the cost is debited and the command
   * written, nothing else changing.  Any failure leaves the board as it was.
   * Floors already broken may still receive a command.
   */
  function PlaceCommandOnBuilding(b: Board, bid: EntityId, floor: int, c: Command): (r: (Board, bool))
    ensures r.1 <==> bid in b.buildings && 0 <= floor <= 1 && GetCommand(b.buildings[bid], floor).None? && c.cost <= b.budget
    ensures !r.1 ==> r.0 == b
    ensures r.1 ==>
              && bid in r.0.buildings
              && r.0.budget == b.budget - c.cost
              && GetCommand(r.0.buildings[bid], floor) == Some(c)
              && GetCommand(r.0.buildings[bid], 1 - floor) == GetCommand(b.buildings[bid], 1 - floor)
              && r.0.buildings[bid].base == b.buildings[bid].base
              && r.0.buildings[bid].floors == b.buildings[bid].floors
              && r.0.buildings[bid].buildingType == b.buildings[bid].buildingType
              && r.0 == b.(budget := r.0.budget, buildings := b.buildings[bid := r.0.buildings[bid]])
  {
    if bid !in b.buildings then (b, false)
    else if floor < 0 || floor > 1 then (b, false)
    else if GetCommand(b.buildings[bid], floor).Some? then (b, false)
    else
      var paid := SpendBudget(b, c.cost);
      if !paid.1 then (b, false)
      else
        var placed := SetCommand(b.buildings[bid], floor, c);
        (paid.0.(buildings := paid.0.buildings[bid := placed.0]), placed.1)
  }

  lemma PlaceCommandKeepsWf(b: Board, bid: EntityId, floor: int, c: Command)
    requires Wf(b)
    ensures Wf(PlaceCommandOnBuilding(b, bid, floor, c).0)
  {
    var r := PlaceCommandOnBuilding(b, bid, floor, c);
    if r.1 {
      var b1 := b.(budget := b.budget - c.cost);
      CountersKeepWf(b, b1);
      var bl := r.0.buildings[bid];
      assert b.buildings[bid].base.id == bid;
      StoreBuildingKeepsWf(b1, bl);
      assert r.0 == Store(b1, BuildingPiece(bl));
    }
  }

  /**
   * A floor takes one command for good: once a placement succeeds, any
   * further placement on the same floor fails and costs nothing, and the
   * placed command stays readable.
   */
  lemma PlacedFloorStaysTaken(b: Board, bid: EntityId, floor: int, c: Command, c2: Command)
    requires PlaceCommandOnBuilding(b, bid, floor, c).1
    ensures var b1 := PlaceCommandOnBuilding(b, bid, floor, c).0;
            && PlaceCommandOnBuilding(b1, bid, floor, c2) == (b1, false)
            && GetCommand(b1.buildings[bid], floor) == Some(c)
  {
  }

  /** There is a building on cell `p`: the grid shows a building identity there. */
  predicate BuildingCellAt(b: Board, p: Position) {
    GetEntityAt(b, p).Some? && GetEntityAt(b, p).value.kind == BuildingCell
  }

  /**
   * When a placement at cell `p` goes through: a building is shown there,
   * the floor is 0 or 1 and still free, and the budget covers the cost.
   */
  predicate CanPlace(b: Board, p: Position, floor: int, c: Command) {
    && BuildingCellAt(b, p) && b.grid[p] in b.buildings
    && 0 <= floor <= 1 && GetCommand(b.buildings[b.grid[p]], floor).None?
    && c.cost <= b.budget
  }

  /**
   * Places `c` on the building shown at cell `p`; an off-board or empty cell,
   * or a cell showing anything but a building, refuses.
   */
  function PlaceCommandAtPosition(b: Board, p: Position, floor: int, c: Command): (r: (Board, bool))
    requires Wf(b)
    ensures !BuildingCellAt(b, p) ==> r == (b, false)
    ensures BuildingCellAt(b, p) ==>
              var bid := b.grid[p];
              && bid in b.buildings && b.buildings[bid].base.position == p
              && (r.1 <==> 0 <= floor <= 1 && GetCommand(b.buildings[bid], floor).None? && c.cost <= b.budget)
              && (r.1 ==> bid in r.0.buildings && r.0.budget == b.budget - c.cost && GetCommand(r.0.buildings[bid], floor) == Some(c))
    ensures !r.1 ==> r.0 == b
    ensures r.1 <==> CanPlace(b, p, floor, c)
    ensures BuildingCellAt(b, p) ==> r == PlaceCommandOnBuilding(b, b.grid[p], floor, c)
  {
    match GetEntityAt(b, p)
    case None => (b, false)
    case Some(id) =>
      assert Holds(b, id, p);
      if id.kind != BuildingCell then (b, false)
      else PlaceCommandOnBuilding(b, id, floor, c)
  }

  lemma PlaceAtPositionKeepsWf(b: Board, p: Position, floor: int, c: Command)
    requires Wf(b)
    ensures Wf(PlaceCommandAtPosition(b, p, floor, c).0)
  {
    if BuildingCellAt(b, p) {
      PlaceCommandKeepsWf(b, b.grid[p], floor, c);
    }
  }

  // ---------------------------------------------------------------------
  // Executing commands by hand
  // ---------------------------------------------------------------------

  /**
   * Stomps the building shown at `p`: all its remaining floors break at
   * once, it leaves the board, and their value is returned.  The score is
   * not touched.  Without a building there the board is unchanged and the
   * value is 0.
   */
  function ExecuteStompAtPosition(b: Board, p: Position): (r: (Board, int))
    requires Wf(b)
    ensures !BuildingCellAt(b, p) ==> r == (b, 0)
    ensures BuildingCellAt(b, p) ==>
              var bid := b.grid[p];
              && bid in b.buildings
              && r.1 == b.buildings[bid].floors * GetValuePerFloor(b.buildings[bid])
              && bid !in r.0.buildings && p !in r.0.grid
              && r.0.buildings == b.buildings - {bid} && r.0.grid == b.grid - {p}
              && r.0 == b.(buildings := b.buildings - {bid}, grid := b.grid - {p})
    ensures r.0.score == b.score && r.0.budget == b.budget && r.0.kaijus == b.kaijus
    ensures r.1 >= 0
  {
    match GetEntityAt(b, p)
    case None => (b, 0)
    case Some(id) =>
      assert Holds(b, id, p);
      if id.kind != BuildingCell then (b, 0)
      else
        var stomped := Stomp(b.buildings[id]);
        (Settle(b, stomped.0), stomped.1)
  }

  lemma ExecuteStompKeepsWf(b: Board, p: Position)
    requires Wf(b)
    ensures Wf(ExecuteStompAtPosition(b, p).0)
  {
    if BuildingCellAt(b, p) {
      var id := b.grid[p];
      assert Holds(b, id, p);
      SettleKeepsWf(b, Stomp(b.buildings[id]).0);
    }
  }

  /**
   * Fires the command on the exposed floor of the building at `p`: a stomp
   * command stomps it; no building, no floor left, no command, or any other
   * command type does nothing and yields 0.
   */
  function ExecuteCommandAtPosition(b: Board, p: Position): (r: (Board, int))
    requires Wf(b)
    ensures BuildingCellAt(b, p) && b.grid[p] in b.buildings && HasStomp(b.buildings[b.grid[p]]) ==>
              r == ExecuteStompAtPosition(b, p)
    ensures !(BuildingCellAt(b, p) && b.grid[p] in b.buildings && HasStomp(b.buildings[b.grid[p]])) ==>
              r == (b, 0)
  {
    match GetEntityAt(b, p)
    case None => (b, 0)
    case Some(id) =>
      assert Holds(b, id, p);
      if id.kind != BuildingCell then (b, 0)
      else
        var building := b.buildings[id];
        var currentFloor := GetIntactFloors(building) - 1;
        if currentFloor < 0 then (b, 0)
        else
          var command := GetCommand(building, currentFloor);
          if command.None? then (b, 0)
          else if command.value.kind == StompCommand then ExecuteStompAtPosition(b, p)
          else (b, 0)
  }

  /**
   * A manual stomp clears the cell for good: fired twice at the same cell,
   * the second finds no building, changes nothing and yields 0.
   */
  lemma StompTwiceYieldsNothing(b: Board, p: Position)
    requires Wf(b)
    ensures var b1 := ExecuteStompAtPosition(b, p).0;
            Wf(b1) && ExecuteStompAtPosition(b1, p) == (b1, 0)
  {
    ExecuteStompKeepsWf(b, p);
  }
}
