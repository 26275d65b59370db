/**
 * The facade the interface drives (src/services/GameService.ts): a board, a
 * map generator of the same size and the last layout loaded, with the
 * calls that start a game, load a layout, place commands and advance turns.
 */
module GameService {
  import opened Wrappers
  import opened Types
  import opened Entities
  import opened Kaijus
  import opened Buildings
  import opened GameBoard
  import MapGenerator
  import CommandManager
  import Turn

  /** A 5 by 5 board, 15 moves, a budget of 110. */
  const DefaultConfig := GameConfig(5, 5, 15, 110)

  datatype Service = Service(board: Board, generator: MapGenerator.Generator, mapData: Option<MapGenerator.MapData>)

  ghost predicate Valid(s: Service) {
    Wf(s.board)
  }

  /** A fresh service: an empty board and a generator for the configured size, no layout yet. */
  function NewGameService(config: GameConfig): (s: Service)
    ensures Valid(s) && s.mapData.None?
    ensures s.board.rows == s.generator.rows == config.rows && s.board.cols == s.generator.cols == config.cols
    ensures s.board.budget == s.board.initialBudget == config.initialBudget && s.board.moveLimit == config.moveLimit
    ensures s.board.score == 0 && s.board.currentMove == 0 && s.board.grid == map[]
  {
    Service(NewBoard(config), MapGenerator.Generator(config.rows, config.cols), None)
  }

  /** The position in the layout's kaiju list of the entry an identity was issued to. */
  function KaijuEntryOf(b: Board, d: MapGenerator.MapData, id: EntityId): int {
    id.serial - b.nextSerial - |d.buildings| - |d.obstacles| - |d.beds|
  }

  /**
   * Resets the board, remembers the layout and loads it: counters restart,
   * the budget is full again, exactly the layout's on-board cells are filled,
   * and every kaiju starts fresh.  What each cell and index holds is stated by
   * `LoadedEntryIsInstalled`, `LoadedCellHoldsLastEntry`, `LoadedKaiju` and
   * `LoadedOrderFollowsLayout`.
   */
  function LoadMap(s: Service, d: MapGenerator.MapData): (r: Service)
    ensures Valid(r) && r.mapData == Some(d) && r.generator == s.generator
    ensures r.board.currentMove == 0 && r.board.score == 0 && r.board.budget == s.board.initialBudget
    ensures r.board.rows == s.board.rows && r.board.cols == s.board.cols
    ensures r.board.moveLimit == s.board.moveLimit && r.board.initialBudget == s.board.initialBudget
    ensures r.board.grid.Keys == SpawnCells(s.board, Spawns(d))
    ensures forall id | id in r.board.kaijus :: IsNewKaiju(r.board.kaijus[id])
  {
    var cleared := Reset(s.board);
    assert SpawnCells(cleared, Spawns(d)) == SpawnCells(s.board, Spawns(d));
    Service(GameBoard.LoadMap(cleared, d), s.generator, Some(d))
  }

  /** After a load, every on-board entry is indexed as the entity built from it with the serial issued to it. */
  lemma LoadedEntryIsInstalled(s: Service, d: MapGenerator.MapData, i: int)
    requires 0 <= i < |Spawns(d)| && IsValidPosition(s.board, Spawns(d)[i].At())
    ensures Installed(LoadMap(s, d).board, Create(Spawns(d)[i], s.board.nextSerial + i))
  {
    var cleared := Reset(s.board);
    assert IsValidPosition(cleared, Spawns(d)[i].At());
    LoadMapInstalls(cleared, d, i);
    assert LoadMap(s, d).board == GameBoard.LoadMap(cleared, d);
    assert Create(Spawns(d)[i], cleared.nextSerial + i) == Create(Spawns(d)[i], s.board.nextSerial + i);
  }

  /** After a load, an on-board entry that no later entry overwrites holds its cell. */
  lemma LoadedCellHoldsLastEntry(s: Service, d: MapGenerator.MapData, i: int)
    requires 0 <= i < |Spawns(d)| && IsValidPosition(s.board, Spawns(d)[i].At())
    requires Spawns(d)[i].At() !in EntryCells(Spawns(d)[i + 1..])
    ensures Spawns(d)[i].At() in LoadMap(s, d).board.grid
    ensures LoadMap(s, d).board.grid[Spawns(d)[i].At()] == Create(Spawns(d)[i], s.board.nextSerial + i).Base().id
  {
    var cleared := Reset(s.board);
    assert IsValidPosition(cleared, Spawns(d)[i].At());
    LoadMapLastEntryWins(cleared, d, i);
    assert LoadMap(s, d).board == GameBoard.LoadMap(cleared, d);
    assert Create(Spawns(d)[i], cleared.nextSerial + i) == Create(Spawns(d)[i], s.board.nextSerial + i);
  }

  /**
   * The layout's `k`-th kaiju is in the kaiju order exactly when it lies on
   * the board, and then it is indexed as a new kaiju of its type, cell and
   * direction.
   */
  lemma LoadedKaiju(s: Service, d: MapGenerator.MapData, k: int)
    requires 0 <= k < |d.kaijus|
    ensures var r := LoadMap(s, d).board;
            var id := LoadedKaijuId(s.board, d, k);
            && (id in r.kaijuOrder <==> IsValidPosition(s.board, d.kaijus[k].position))
            && (IsValidPosition(s.board, d.kaijus[k].position) ==>
                  id in r.kaijus
                  && r.kaijus[id] == NewKaiju(d.kaijus[k].position, d.kaijus[k].kaijuType, Some(d.kaijus[k].direction), id.serial))
  {
    var cleared := Reset(s.board);
    LoadMapListsKaiju(cleared, d, k);
    if IsValidPosition(s.board, d.kaijus[k].position) {
      assert IsValidPosition(cleared, d.kaijus[k].position);
      LoadMapIndexesKaiju(cleared, d, k);
    }
    var r := GameBoard.LoadMap(cleared, d);
    assert LoadMap(s, d).board == r;
    assert LoadedKaijuId(s.board, d, k) == LoadedKaijuId(cleared, d, k);
    assert r.kaijuOrder[|cleared.kaijuOrder|..] == r.kaijuOrder;
    assert IsValidPosition(cleared, d.kaijus[k].position) == IsValidPosition(s.board, d.kaijus[k].position);
  }

  /**
   * The kaiju order after a load follows the layout's kaiju list: each listed
   * identity was issued to one of its entries, and earlier in the order means
   * earlier in the list.
   */
  lemma LoadedOrderFollowsLayout(s: Service, d: MapGenerator.MapData, i: int, j: int)
    requires 0 <= i <= j < |LoadMap(s, d).board.kaijuOrder|
    ensures var order := LoadMap(s, d).board.kaijuOrder;
            var ki := KaijuEntryOf(s.board, d, order[i]);
            var kj := KaijuEntryOf(s.board, d, order[j]);
            && 0 <= ki < |d.kaijus| && order[i] == LoadedKaijuId(s.board, d, ki)
            && 0 <= kj < |d.kaijus| && order[j] == LoadedKaijuId(s.board, d, kj)
            && (i < j ==> ki < kj)
  {
    var cleared := Reset(s.board);
    var r := GameBoard.LoadMap(cleared, d);
    assert LoadMap(s, d).board == r;
    assert r.kaijuOrder[|cleared.kaijuOrder|..] == r.kaijuOrder;
    LoadMapAppendsKaijuInOrder(cleared, d);
    LoadedIdIsKaijuEntry(cleared, d, r.kaijuOrder, r.kaijuOrder[i]);
    LoadedIdIsKaijuEntry(cleared, d, r.kaijuOrder, r.kaijuOrder[j]);
  }

  /** An identity the loader appended was issued to a kaiju entry of the layout. */
  lemma LoadedIdIsKaijuEntry(b: Board, d: MapGenerator.MapData, ids: seq<EntityId>, id: EntityId)
    requires LoadedKaijuOrder(b, Spawns(d), ids) && id in ids
    ensures 0 <= KaijuEntryOf(b, d, id) < |d.kaijus| && id == LoadedKaijuId(b, d, KaijuEntryOf(b, d, id))
  {
    var sp := Spawns(d);
    var i := id.serial - b.nextSerial;
    assert id == EntityId(KaijuCell, b.nextSerial + i);
    assert sp[i].SpawnKaiju?;
  }

  /** Starts a game: resets, generates a layout with the given building categories, loads it. */
  function InitGame(s: Service, pick: Position -> BuildingType): (r: Service)
    requires s.generator.rows >= 0 && s.generator.cols >= 0
    ensures r == LoadMap(s, MapGenerator.GenerateMap(s.generator, pick))
    ensures Valid(r) && r.board.currentMove == 0 && r.board.score == 0 && r.board.budget == s.board.initialBudget
  {
    LoadMap(s, MapGenerator.GenerateMap(s.generator, pick))
  }

  /** Every layout entry on the board fills its cell when loaded. */
  lemma EntryCellIsSpawned(b: Board, d: MapGenerator.MapData, p: Position)
    requires MapGenerator.HasEntityAt(d, p) && IsValidPosition(b, p)
    ensures p in SpawnCells(b, Spawns(d))
  {
    var s := Spawns(d);
    var nb, no, nd := |d.buildings|, |d.obstacles|, |d.beds|;
    if i :| 0 <= i < |d.kaijus| && d.kaijus[i].position == p {
      assert s[nb + no + nd + i].At() == p;
    } else if i :| 0 <= i < |d.beds| && d.beds[i].position == p {
      assert s[nb + no + i].At() == p;
    } else if i :| 0 <= i < |d.obstacles| && d.obstacles[i].position == p {
      assert s[nb + i].At() == p;
    } else {
      var i :| 0 <= i < |d.buildings| && d.buildings[i].position == p;
      assert s[i].At() == p;
    }
  }

  /**
   * When the generator and the board have the same size, a new game leaves
   * no cell of the board empty.
   */
  lemma InitGameFillsEveryCell(s: Service, pick: Position -> BuildingType, p: Position)
    requires s.generator.rows >= 0 && s.generator.cols >= 0
    requires s.generator.rows == s.board.rows && s.generator.cols == s.board.cols
    requires IsValidPosition(s.board, p)
    ensures p in InitGame(s, pick).board.grid
  {
    var d := MapGenerator.GenerateMap(s.generator, pick);
    assert MapGenerator.IsValidPosition(s.generator, p);
    EntryCellIsSpawned(s.board, d, p);
  }

  /** Places a command on the building at a cell, as the player does. */
  function PlaceCommand(s: Service, p: Position, floor: int, c: Command): (r: (Service, bool))
    requires Valid(s)
    ensures Valid(r.0) && r.0.mapData == s.mapData && r.0.generator == s.generator
    ensures r.0.board == CommandManager.PlaceCommandAtPosition(s.board, p, floor, c).0
    ensures r.1 == CommandManager.PlaceCommandAtPosition(s.board, p, floor, c).1
    ensures r.0.board.budget == if r.1 then s.board.budget - c.cost else s.board.budget
  {
    CommandManager.PlaceAtPositionKeepsWf(s.board, p, floor, c);
    var placed := CommandManager.PlaceCommandAtPosition(s.board, p, floor, c);
    (s.(board := placed.0), placed.1)
  }

  /** Advances one turn. */
  function ExecuteTurn(s: Service): (r: (Service, bool))
    requires Valid(s)
    ensures Valid(r.0) && r.0.mapData == s.mapData && r.0.generator == s.generator
    ensures r.0.board == Turn.ProcessTurn(s.board).0 && r.1 == Turn.ProcessTurn(s.board).1
  {
    var turned := Turn.ProcessTurn(s.board);
    (s.(board := turned.0), turned.1)
  }

  /** The game is over once the move limit is reached or no kaiju is still walking. */
  function IsGameOver(s: Service): (r: bool)
    requires Valid(s)
    ensures r <==> s.board.currentMove >= s.board.moveLimit
                   || forall id | id in s.board.kaijus :: !s.board.kaijus[id].alive || s.board.kaijus[id].reachedBed
  {
    GameBoard.IsGameOver(s.board)
  }

  function GetScore(s: Service): int { s.board.score }
  function GetMapData(s: Service): Option<MapGenerator.MapData> { s.mapData }
  function GetCurrentMove(s: Service): int { s.board.currentMove }
  function GetMoveLimit(s: Service): int { s.board.moveLimit }
  function GetRemainingBudget(s: Service): int { s.board.budget }

  /**
   * The initial budget the service reports: always the default
   * configuration's, whatever the board was built with.
   */
  function GetInitialBudget(s: Service): (budget: int)
    ensures budget == 110
    ensures s.board.initialBudget != 110 ==> budget != s.board.initialBudget
  {
    DefaultConfig.initialBudget
  }

  function GetAvailableCommands(s: Service): seq<Command> {
    CommandManager.GetAvailableCommands()
  }

  // ---------------------------------------------------------------------
  // A game as a sequence of player actions
  // ---------------------------------------------------------------------

  datatype Action =
    | PlaceAction(position: Position, floor: int, command: Command)
    | TurnAction

  /** What a run of actions paid: the costs of the placements that went through. */
  function Spent(actions: seq<Action>, done: seq<bool>): int
    requires |done| == |actions|
  {
    if actions == [] then 0
    else (if actions[0].PlaceAction? && done[0] then actions[0].command.cost else 0) + Spent(actions[1..], done[1..])
  }

  /**
   * One action and the result the service reports for it: a placement goes
   * through exactly when its conditions hold and then debits the command's
   * cost; a turn goes through while moves remain and debits nothing.
   */
  function Apply(s: Service, a: Action): (r: (Service, bool))
    requires Valid(s)
    ensures Valid(r.0) && r.0.mapData == s.mapData && r.0.generator == s.generator
    ensures r.0.board.initialBudget == s.board.initialBudget
    ensures r.0.board.score >= s.board.score
    ensures a.PlaceAction? ==> (r.1 <==> CommandManager.CanPlace(s.board, a.position, a.floor, a.command))
    ensures a.PlaceAction? ==> r.0.board.budget == if r.1 then s.board.budget - a.command.cost else s.board.budget
    ensures a.TurnAction? ==> (r.1 <==> s.board.currentMove < s.board.moveLimit)
    ensures a.TurnAction? ==> r.0.board.budget == s.board.budget
  {
    match a
    case PlaceAction(p, floor, c) => PlaceCommand(s, p, floor, c)
    case TurnAction => ExecuteTurn(s)
  }

  /**
   * A whole game: the actions in order, with the result reported for each.
   * The budget left is the starting budget less the costs of the placements
   * that went through; the score never drops; and when no command costs less
   * than nothing, the budget stays between 0 and where it started.
   */
  function Play(s: Service, actions: seq<Action>): (r: (Service, seq<bool>))
    requires Valid(s)
    ensures Valid(r.0) && |r.1| == |actions|
    ensures r.0.board.budget == s.board.budget - Spent(actions, r.1)
    ensures r.0.board.initialBudget == s.board.initialBudget
    ensures r.0.board.score >= s.board.score
    ensures ((forall i | 0 <= i < |actions| :: actions[i].PlaceAction? ==> actions[i].command.cost >= 0)
             && s.board.budget >= 0) ==> 0 <= r.0.board.budget <= s.board.budget
    decreases |actions|
  {
    if actions == [] then (s, [])
    else
      var first := Apply(s, actions[0]);
      var rest := Play(first.0, actions[1..]);
      assert forall i | 0 <= i < |actions[1..]| :: actions[1..][i] == actions[i + 1];
      assert ([first.1] + rest.1)[1..] == rest.1;
      (rest.0, [first.1] + rest.1)
  }

  /**
   * The `i`-th result a game reports is the result of the `i`-th action
   * applied where the first `i` actions left the service.
   */
  lemma {:induction false} PlayReportsEachAction(s: Service, actions: seq<Action>, i: int)
    requires Valid(s) && 0 <= i < |actions|
    ensures Play(s, actions).1[i] == Apply(Play(s, actions[..i]).0, actions[i]).1
    decreases i
  {
    if i == 0 {
      assert actions[..0] == [];
    } else {
      var first := Apply(s, actions[0]);
      PlayReportsEachAction(first.0, actions[1..], i - 1);
      assert actions[..i][0] == actions[0] && actions[..i][1..] == actions[1..][..i - 1];
      assert actions[1..][i - 1] == actions[i];
    }
  }

  /** Playing one more action continues from where the shorter game left the service. */
  lemma {:induction false} PlayOneMore(s: Service, actions: seq<Action>, i: int)
    requires Valid(s) && 0 <= i < |actions|
    ensures Play(s, actions[..i + 1]).0 == Apply(Play(s, actions[..i]).0, actions[i]).0
    decreases i
  {
    if i == 0 {
      assert actions[..1] == [actions[0]] && actions[..1][1..] == [] && actions[..0] == [];
    } else {
      var first := Apply(s, actions[0]);
      var tail := actions[1..];
      assert actions[..i][0] == actions[0] && actions[..i][1..] == tail[..i - 1];
      assert actions[..i + 1][0] == actions[0] && actions[..i + 1][1..] == tail[..i];
      assert Play(s, actions[..i]).0 == Play(first.0, tail[..i - 1]).0;
      assert Play(s, actions[..i + 1]).0 == Play(first.0, tail[..i]).0;
      assert tail[i - 1] == actions[i];
      PlayOneMore(first.0, tail, i - 1);
    }
  }

}
