/**
 * The board (src/models/GameBoard.ts, everything but processTurn): a
 * rows x cols grid of optional occupants, one index per entity kind, and the
 * move, budget and score counters.
 *
 * The source's grid cells and indices alias the same mutable objects.  Here
 * the grid holds identities and each index maps an identity to the current
 * record, so "mutating the shared object" is writing the new record back into
 * its index.  `kaijuOrder` is the insertion order of the kaiju index (the
 * iteration order of a JavaScript Map), which decides ties in the turn order.
 */
module GameBoard {
  import opened Wrappers
  import opened Types
  import opened Entities
  import opened Kaijus
  import opened Buildings
  import opened Beds
  import opened Obstacles
  import opened MapGenerator
  import opened Sequences

  datatype Board = Board(
    rows: int,
    cols: int,
    grid: map<Position, EntityId>,
    kaijus: map<EntityId, Kaiju>,
    kaijuOrder: seq<EntityId>,
    buildings: map<EntityId, Building>,
    obstacles: map<EntityId, Obstacle>,
    beds: map<EntityId, Bed>,
    moveLimit: int,
    currentMove: int,
    budget: int,
    initialBudget: int,
    score: int,
    nextSerial: nat)

  /** An entity of any kind, as handed to the placement primitives. */
  datatype Piece =
    | KaijuPiece(kaiju: Kaiju)
    | BuildingPiece(building: Building)
    | ObstaclePiece(obstacle: Obstacle)
    | BedPiece(bed: Bed)
  {
    function Base(): Entity {
      match this
      case KaijuPiece(k) => k.base
      case BuildingPiece(b) => b.base
      case ObstaclePiece(o) => o.base
      case BedPiece(b) => b.base
    }

    /** The same entity with its position changed (Entity.setPosition). */
    function WithPosition(p: Position): (r: Piece)
      ensures r.Base() == SetPosition(Base(), p)
    {
      match this
      case KaijuPiece(k) => KaijuPiece(k.(base := SetPosition(k.base, p)))
      case BuildingPiece(b) => BuildingPiece(b.(base := SetPosition(b.base, p)))
      case ObstaclePiece(o) => ObstaclePiece(o.(base := SetPosition(o.base, p)))
      case BedPiece(b) => BedPiece(b.(base := SetPosition(b.base, p)))
    }
  }

  // ---------------------------------------------------------------------
  // Well-formedness: what every board reachable through the operations keeps
  // ---------------------------------------------------------------------

  /** A cell inside the grid; no cell is inside an empty one. */
  predicate IsValidPosition(b: Board, p: Position): (r: bool)
    ensures r ==> b.rows > 0 && b.cols > 0
  {
    0 <= p.row < b.rows && 0 <= p.col < b.cols
  }

  /** The index of `id`'s kind holds `id`, and its record stands at `p`. */
  predicate Holds(b: Board, id: EntityId, p: Position) {
    match id.kind
    case KaijuCell => id in b.kaijus && b.kaijus[id].base.position == p
    case BuildingCell => id in b.buildings && b.buildings[id].base.position == p
    case ObstacleCell => id in b.obstacles && b.obstacles[id].base.position == p
    case BedCell => id in b.beds && b.beds[id].base.position == p
    case EmptyCell => false
  }

  /**
   * Grid to index, one way only: a non-empty cell holds an indexed entity
   * standing on that cell.  The converse fails on purpose: a kaiju stepping
   * onto a building, an obstacle or its bed overwrites the cell while the
   * overwritten entity stays indexed.
   */
  ghost predicate GridOk(b: Board) {
    forall p | p in b.grid :: IsValidPosition(b, p) && Holds(b, b.grid[p], p)
  }

  /** Each record is filed under its own identity, of its own kind, stands on the board, and was issued by it. */
  ghost predicate IndexOk(b: Board) {
    KaijuIndexOk(b) && BuildingIndexOk(b) && ObstacleIndexOk(b) && BedIndexOk(b)
  }

  ghost predicate KaijuIndexOk(b: Board) {
    forall id | id in b.kaijus ::
      && id.kind == KaijuCell && b.kaijus[id].base.id == id && b.kaijus[id].base.cellType == KaijuCell
      && id.serial < b.nextSerial && IsValidPosition(b, b.kaijus[id].base.position)
  }

  ghost predicate BuildingIndexOk(b: Board) {
    forall id | id in b.buildings ::
      && id.kind == BuildingCell && b.buildings[id].base.id == id && b.buildings[id].base.cellType == BuildingCell
      && id.serial < b.nextSerial && IsValidPosition(b, b.buildings[id].base.position)
  }

  ghost predicate ObstacleIndexOk(b: Board) {
    forall id | id in b.obstacles ::
      && id.kind == ObstacleCell && b.obstacles[id].base.id == id && b.obstacles[id].base.cellType == ObstacleCell
      && id.serial < b.nextSerial && IsValidPosition(b, b.obstacles[id].base.position)
  }

  ghost predicate BedIndexOk(b: Board) {
    forall id | id in b.beds ::
      && id.kind == BedCell && b.beds[id].base.id == id && b.beds[id].base.cellType == BedCell
      && id.serial < b.nextSerial && IsValidPosition(b, b.beds[id].base.position)
  }

  ghost predicate NoDuplicates<T>(s: seq<T>) {
    forall i, j | 0 <= i < j < |s| :: s[i] != s[j]
  }

  /** `kaijuOrder` lists every indexed kaiju exactly once. */
  ghost predicate OrderOk(b: Board) {
    && (forall id :: id in b.kaijuOrder <==> id in b.kaijus)
    && NoDuplicates(b.kaijuOrder)
  }

  ghost predicate KaijusValid(b: Board) {
    forall id | id in b.kaijus :: Kaijus.Valid(b.kaijus[id])
  }

  ghost predicate Wf(b: Board) {
    GridOk(b) && IndexOk(b) && OrderOk(b) && KaijusValid(b)
  }

  // ---------------------------------------------------------------------
  // Construction and reset
  // ---------------------------------------------------------------------

  /** An empty board with the configured counters. */
  function NewBoard(config: GameConfig): (b: Board)
    ensures Wf(b)
    ensures b.rows == config.rows && b.cols == config.cols && b.moveLimit == config.moveLimit
    ensures b.currentMove == 0 && b.score == 0
    ensures b.budget == config.initialBudget && b.initialBudget == config.initialBudget
    ensures b.grid == map[] && b.kaijus == map[] && b.buildings == map[] && b.obstacles == map[] && b.beds == map[]
  {
    Board(config.rows, config.cols, map[], map[], [], map[], map[], map[],
          config.moveLimit, 0, config.initialBudget, config.initialBudget, 0, 0)
  }

  /** Back to an empty board with a full budget; size and move limit are kept. */
  function Reset(b: Board): (r: Board)
    ensures Wf(r)
    ensures r.currentMove == 0 && r.score == 0 && r.budget == b.initialBudget
    ensures r.grid == map[] && r.kaijus == map[] && r.kaijuOrder == []
    ensures r.buildings == map[] && r.obstacles == map[] && r.beds == map[]
    ensures r.rows == b.rows && r.cols == b.cols && r.moveLimit == b.moveLimit && r.initialBudget == b.initialBudget
    ensures r.nextSerial == b.nextSerial
  {
    b.(currentMove := 0, budget := b.initialBudget, score := 0, grid := map[],
       kaijus := map[], kaijuOrder := [], buildings := map[], obstacles := map[], beds := map[])
  }

  // ---------------------------------------------------------------------
  // The placement primitives
  // ---------------------------------------------------------------------

  /**
   * Writes `e` into its cell and its index, overwriting whatever the cell
   * held; refuses an out-of-bounds position and changes nothing then.
   */
  function PlaceEntity(b: Board, e: Piece): (r: (Board, bool))
    ensures r.1 <==> IsValidPosition(b, e.Base().position)
    ensures !r.1 ==> r.0 == b
    ensures r.1 ==> r.0.grid == b.grid[e.Base().position := e.Base().id]
    ensures r.1 && e.KaijuPiece? ==> r.0.kaijus == b.kaijus[e.Base().id := e.kaiju]
    ensures r.1 && e.BuildingPiece? ==> r.0.buildings == b.buildings[e.Base().id := e.building]
    ensures r.1 && e.ObstaclePiece? ==> r.0.obstacles == b.obstacles[e.Base().id := e.obstacle]
    ensures r.1 && e.BedPiece? ==> r.0.beds == b.beds[e.Base().id := e.bed]
    ensures r.1 && e.KaijuPiece? ==>
              r.0.kaijuOrder == if e.Base().id in b.kaijus then b.kaijuOrder else b.kaijuOrder + [e.Base().id]
    ensures !e.KaijuPiece? ==> r.0.kaijus == b.kaijus && r.0.kaijuOrder == b.kaijuOrder
    ensures !e.BuildingPiece? ==> r.0.buildings == b.buildings
    ensures !e.ObstaclePiece? ==> r.0.obstacles == b.obstacles
    ensures !e.BedPiece? ==> r.0.beds == b.beds
    ensures SameCounters(b, r.0)
  {
    var p := e.Base().position;
    var id := e.Base().id;
    if !IsValidPosition(b, p) then (b, false)
    else
      var b1 := b.(grid := b.grid[p := id]);
      match e
      case KaijuPiece(k) =>
        var order := if id in b.kaijus then b.kaijuOrder else b.kaijuOrder + [id];
        (b1.(kaijus := b.kaijus[id := k], kaijuOrder := order), true)
      case BuildingPiece(bl) => (b1.(buildings := b.buildings[id := bl]), true)
      case ObstaclePiece(o) => (b1.(obstacles := b.obstacles[id := o]), true)
      case BedPiece(bd) => (b1.(beds := b.beds[id := bd]), true)
  }

  /** Size, limits, counters and identity allocation agree. */
  predicate SameCounters(b: Board, r: Board) {
    && r.rows == b.rows && r.cols == b.cols && r.moveLimit == b.moveLimit
    && r.currentMove == b.currentMove && r.budget == b.budget && r.initialBudget == b.initialBudget
    && r.score == b.score && r.nextSerial == b.nextSerial
  }

  /** Writes the (current) record of an entity back into its index, if it is indexed. */
  function Store(b: Board, e: Piece): (r: Board)
    ensures SameCounters(b, r) && r.grid == b.grid && r.kaijuOrder == b.kaijuOrder
    ensures e.KaijuPiece? && e.Base().id in b.kaijus ==> r.kaijus == b.kaijus[e.Base().id := e.kaiju]
    ensures !(e.KaijuPiece? && e.Base().id in b.kaijus) ==> r.kaijus == b.kaijus
    ensures e.BuildingPiece? && e.Base().id in b.buildings ==> r.buildings == b.buildings[e.Base().id := e.building]
    ensures !(e.BuildingPiece? && e.Base().id in b.buildings) ==> r.buildings == b.buildings
    ensures r.obstacles.Keys == b.obstacles.Keys && r.beds.Keys == b.beds.Keys
  {
    var id := e.Base().id;
    match e
    case KaijuPiece(k) => if id in b.kaijus then b.(kaijus := b.kaijus[id := k]) else b
    case BuildingPiece(bl) => if id in b.buildings then b.(buildings := b.buildings[id := bl]) else b
    case ObstaclePiece(o) => if id in b.obstacles then b.(obstacles := b.obstacles[id := o]) else b
    case BedPiece(bd) => if id in b.beds then b.(beds := b.beds[id := bd]) else b
  }

  /**
   * Moves `e` to `newPos`: its old cell becomes empty, its position
   * changes, and the new cell holds it, whatever the new cell held before.
   * Refuses an out-of-bounds target and changes nothing then.
   */
  function MoveEntity(b: Board, e: Piece, newPos: Position): (r: (Board, bool))
    ensures r.1 <==> IsValidPosition(b, newPos)
    ensures !r.1 ==> r.0 == b
    ensures r.1 ==> r.0.grid == (b.grid - {e.Base().position})[newPos := e.Base().id]
    ensures r.1 ==> r.0 == Store(b, e.WithPosition(newPos)).(grid := r.0.grid)
    ensures SameCounters(b, r.0)
  {
    if !IsValidPosition(b, newPos) then (b, false)
    else
      var moved := e.WithPosition(newPos);
      var b1 := Store(b, moved);
      (b1.(grid := (b.grid - {e.Base().position})[newPos := e.Base().id]), true)
  }

  /** `s` without the element `x`, the others in their order (as `Map.delete` leaves the insertion order). */
  function Without(s: seq<EntityId>, x: EntityId): (r: seq<EntityId>)
    ensures forall y :: y in r <==> y in s && y != x
    ensures Subsequence(r, s)
    ensures NoDuplicates(s) ==> NoDuplicates(r)
  {
    if s == [] then []
    else
      var rest := Without(s[1..], x);
      assert forall y | y in s[1..] :: y in s;
      if s[0] == x then rest
      else
        assert s[0] !in s[1..] ==> s[0] !in rest;
        assert ([s[0]] + rest)[1..] == rest;
        [s[0]] + rest
  }

  /**
   * Empties the cell at `e`'s position and drops `e` from its index;
   * refuses an out-of-bounds position and changes nothing then.
   */
  function RemoveEntity(b: Board, e: Piece): (r: (Board, bool))
    ensures r.1 <==> IsValidPosition(b, e.Base().position)
    ensures !r.1 ==> r.0 == b
    ensures r.1 ==> r.0.grid == b.grid - {e.Base().position}
    ensures r.1 && e.KaijuPiece? ==> r.0.kaijus == b.kaijus - {e.Base().id} && r.0.kaijuOrder == Without(b.kaijuOrder, e.Base().id)
    ensures r.1 && e.BuildingPiece? ==> r.0.buildings == b.buildings - {e.Base().id}
    ensures r.1 && e.ObstaclePiece? ==> r.0.obstacles == b.obstacles - {e.Base().id}
    ensures r.1 && e.BedPiece? ==> r.0.beds == b.beds - {e.Base().id}
    ensures !e.KaijuPiece? ==> r.0.kaijus == b.kaijus && r.0.kaijuOrder == b.kaijuOrder
    ensures !e.BuildingPiece? ==> r.0.buildings == b.buildings
    ensures !e.ObstaclePiece? ==> r.0.obstacles == b.obstacles
    ensures !e.BedPiece? ==> r.0.beds == b.beds
    ensures SameCounters(b, r.0)
  {
    var p := e.Base().position;
    var id := e.Base().id;
    if !IsValidPosition(b, p) then (b, false)
    else
      var b1 := b.(grid := b.grid - {p});
      match e
      case KaijuPiece(_) => (b1.(kaijus := b.kaijus - {id}, kaijuOrder := Without(b.kaijuOrder, id)), true)
      case BuildingPiece(_) => (b1.(buildings := b.buildings - {id}), true)
      case ObstaclePiece(_) => (b1.(obstacles := b.obstacles - {id}), true)
      case BedPiece(_) => (b1.(beds := b.beds - {id}), true)
  }

  /** The identity in a cell; nothing for an empty or out-of-bounds cell. */
  function GetEntityAt(b: Board, p: Position): (r: Option<EntityId>)
    ensures r.Some? <==> IsValidPosition(b, p) && p in b.grid
    ensures r.Some? ==> r.value == b.grid[p]
  {
    if !IsValidPosition(b, p) || p !in b.grid then None else Some(b.grid[p])
  }

  // ---------------------------------------------------------------------
  // Well-formedness is kept by the primitives as the engine uses them
  // ---------------------------------------------------------------------

  /** Placing a freshly issued entity inside the board keeps the board well formed. */
  ghost predicate IsFreshFor(b: Board, e: Piece) {
    && e.Base().id.serial < b.nextSerial && e.Base().id.kind == e.Base().cellType
    && (e.KaijuPiece? ==> e.Base().cellType == KaijuCell && Kaijus.Valid(e.kaiju) && e.Base().id !in b.kaijus)
    && (e.BuildingPiece? ==> e.Base().cellType == BuildingCell && e.Base().id !in b.buildings)
    && (e.ObstaclePiece? ==> e.Base().cellType == ObstacleCell && e.Base().id !in b.obstacles)
    && (e.BedPiece? ==> e.Base().cellType == BedCell && e.Base().id !in b.beds)
  }

  /** An index that did not change stays well filed on a board of the same size that issued no fewer identities. */
  lemma KeptIndexesOk(b: Board, r: Board)
    requires IndexOk(b) && r.rows == b.rows && r.cols == b.cols && r.nextSerial >= b.nextSerial
    ensures r.kaijus == b.kaijus ==> KaijuIndexOk(r)
    ensures r.buildings == b.buildings ==> BuildingIndexOk(r)
    ensures r.obstacles == b.obstacles ==> ObstacleIndexOk(r)
    ensures r.beds == b.beds ==> BedIndexOk(r)
  {
  }

  /** Same size, same grid, same issued identities, and every index holds the same bases under the same keys. */
  ghost predicate SameBases(b: Board, r: Board) {
    && r.rows == b.rows && r.cols == b.cols && r.nextSerial == b.nextSerial && r.grid == b.grid
    && r.kaijus.Keys == b.kaijus.Keys && (forall id | id in r.kaijus :: r.kaijus[id].base == b.kaijus[id].base)
    && r.buildings.Keys == b.buildings.Keys && (forall id | id in r.buildings :: r.buildings[id].base == b.buildings[id].base)
    && r.obstacles.Keys == b.obstacles.Keys && (forall id | id in r.obstacles :: r.obstacles[id].base == b.obstacles[id].base)
    && r.beds.Keys == b.beds.Keys && (forall id | id in r.beds :: r.beds[id].base == b.beds[id].base)
  }

  /** Replacing records by ones with the same bases keeps the grid and the indexes well formed. */
  lemma SameBasesKeepLayout(b: Board, r: Board)
    requires GridOk(b) && IndexOk(b) && SameBases(b, r)
    ensures GridOk(r) && IndexOk(r)
  {
    forall p | p in r.grid
      ensures IsValidPosition(r, p) && Holds(r, r.grid[p], p)
    {
      assert Holds(b, b.grid[p], p);
    }
    assert KaijuIndexOk(r) by {
      forall id | id in r.kaijus ensures r.kaijus[id].base == b.kaijus[id].base {}
    }
    assert BuildingIndexOk(r) by {
      forall id | id in r.buildings ensures r.buildings[id].base == b.buildings[id].base {}
    }
    assert ObstacleIndexOk(r) by {
      forall id | id in r.obstacles ensures r.obstacles[id].base == b.obstacles[id].base {}
    }
    assert BedIndexOk(r) by {
      forall id | id in r.beds ensures r.beds[id].base == b.beds[id].base {}
    }
  }

  lemma PlaceKeepsGridOk(b: Board, e: Piece)
    requires Wf(b) && IsFreshFor(b, e)
    ensures GridOk(PlaceEntity(b, e).0)
  {
    var r := PlaceEntity(b, e).0;
    forall p | p in r.grid
      ensures IsValidPosition(r, p) && Holds(r, r.grid[p], p)
    {
      if p != e.Base().position {
        assert Holds(b, b.grid[p], p);
      }
    }
  }

  /** A fresh kaiju placed on the board is appended to the order once; any other placement leaves the order alone. */
  lemma PlaceKeepsOrderOk(b: Board, e: Piece)
    requires Wf(b) && IsFreshFor(b, e)
    ensures PlaceEntity(b, e).0.kaijuOrder
            == if e.KaijuPiece? && IsValidPosition(b, e.Base().position) then b.kaijuOrder + [e.Base().id] else b.kaijuOrder
    ensures OrderOk(PlaceEntity(b, e).0)
  {
    var r := PlaceEntity(b, e).0;
    if IsValidPosition(b, e.Base().position) && e.KaijuPiece? {
      forall i, j | 0 <= i < j < |r.kaijuOrder|
        ensures r.kaijuOrder[i] != r.kaijuOrder[j]
      {
        if j == |b.kaijuOrder| {
          assert r.kaijuOrder[i] == b.kaijuOrder[i];
          assert b.kaijuOrder[i] in b.kaijus;
        }
      }
    }
  }

  /** Placing a freshly issued entity keeps the board well formed. */
  lemma PlaceFreshKeepsWf(b: Board, e: Piece)
    requires Wf(b) && IsFreshFor(b, e)
    ensures Wf(PlaceEntity(b, e).0)
  {
    PlaceKeepsGridOk(b, e);
    PlaceKeepsOrderOk(b, e);
    PlaceKeepsIndexOk(b, e);
  }

  lemma PlaceKeepsIndexOk(b: Board, e: Piece)
    requires IndexOk(b) && KaijusValid(b) && IsFreshFor(b, e)
    ensures IndexOk(PlaceEntity(b, e).0) && KaijusValid(PlaceEntity(b, e).0)
  {
    var r := PlaceEntity(b, e).0;
    if IsValidPosition(b, e.Base().position) {
      KeptIndexesOk(b, r);
      match e
      case KaijuPiece(k) => KaijuUpsertOk(b, r, k);
      case BuildingPiece(bl) => BuildingUpsertOk(b, r, bl);
      case ObstaclePiece(o) => ObstacleUpsertOk(b, r, o);
      case BedPiece(bd) => BedUpsertOk(b, r, bd);
    }
  }

  /** Filing one in-bounds, issued kaiju record under its own identity keeps the kaiju index well filed. */
  lemma KaijuUpsertOk(b: Board, r: Board, k: Kaiju)
    requires KaijuIndexOk(b) && KaijusValid(b) && r.kaijus == b.kaijus[k.base.id := k]
    requires r.rows == b.rows && r.cols == b.cols && r.nextSerial >= b.nextSerial
    requires k.base.id.kind == KaijuCell && k.base.cellType == KaijuCell && Kaijus.Valid(k)
    requires k.base.id.serial < r.nextSerial && IsValidPosition(r, k.base.position)
    ensures KaijuIndexOk(r) && KaijusValid(r)
  {
  }

  lemma BuildingUpsertOk(b: Board, r: Board, bl: Building)
    requires BuildingIndexOk(b) && r.buildings == b.buildings[bl.base.id := bl]
    requires r.rows == b.rows && r.cols == b.cols && r.nextSerial >= b.nextSerial
    requires bl.base.id.kind == BuildingCell && bl.base.cellType == BuildingCell
    requires bl.base.id.serial < r.nextSerial && IsValidPosition(r, bl.base.position)
    ensures BuildingIndexOk(r)
  {
  }

  lemma ObstacleUpsertOk(b: Board, r: Board, o: Obstacle)
    requires ObstacleIndexOk(b) && r.obstacles == b.obstacles[o.base.id := o]
    requires r.rows == b.rows && r.cols == b.cols && r.nextSerial >= b.nextSerial
    requires o.base.id.kind == ObstacleCell && o.base.cellType == ObstacleCell
    requires o.base.id.serial < r.nextSerial && IsValidPosition(r, o.base.position)
    ensures ObstacleIndexOk(r)
  {
  }

  lemma BedUpsertOk(b: Board, r: Board, bd: Bed)
    requires BedIndexOk(b) && r.beds == b.beds[bd.base.id := bd]
    requires r.rows == b.rows && r.cols == b.cols && r.nextSerial >= b.nextSerial
    requires bd.base.id.kind == BedCell && bd.base.cellType == BedCell
    requires bd.base.id.serial < r.nextSerial && IsValidPosition(r, bd.base.position)
    ensures BedIndexOk(r)
  {
  }

  /** A kaiju record with the same identity and cell as its indexed version. */
  ghost predicate IsCurrent(b: Board, k: Kaiju) {
    && k.base.id in b.kaijus
    && b.kaijus[k.base.id].base == k.base
    && Kaijus.Valid(k)
  }

  /** Changing only the counters leaves the entity layout, and so well-formedness, alone. */
  lemma CountersKeepWf(b: Board, r: Board)
    requires Wf(b)
    requires r == b.(currentMove := r.currentMove, budget := r.budget, score := r.score)
    ensures Wf(r)
  {
    SameBasesKeepLayout(b, r);
  }

  /** Writing back a kaiju record that did not change cell keeps the board well formed. */
  lemma StoreKaijuKeepsWf(b: Board, k: Kaiju)
    requires Wf(b) && IsCurrent(b, k)
    ensures Wf(Store(b, KaijuPiece(k)))
  {
    var r := Store(b, KaijuPiece(k));
    assert r == b.(kaijus := b.kaijus[k.base.id := k]);
    assert SameBases(b, r);
    SameBasesKeepLayout(b, r);
  }

  /** Writing back a building record that did not change cell keeps the board well formed. */
  lemma StoreBuildingKeepsWf(b: Board, bl: Building)
    requires Wf(b) && bl.base.id in b.buildings && b.buildings[bl.base.id].base == bl.base
    ensures Wf(Store(b, BuildingPiece(bl)))
  {
    var r := Store(b, BuildingPiece(bl));
    assert r == b.(buildings := b.buildings[bl.base.id := bl]);
    assert SameBases(b, r);
    SameBasesKeepLayout(b, r);
  }

  /** Moving an indexed kaiju to an in-bounds cell keeps the board well formed. */
  lemma MoveKaijuKeepsWf(b: Board, k: Kaiju, newPos: Position)
    requires Wf(b) && IsCurrent(b, k)
    ensures Wf(MoveEntity(b, KaijuPiece(k), newPos).0)
  {
    var r := MoveEntity(b, KaijuPiece(k), newPos).0;
    if IsValidPosition(b, newPos) {
      var moved := k.(base := SetPosition(k.base, newPos));
      assert r == b.(kaijus := b.kaijus[k.base.id := moved], grid := (b.grid - {k.base.position})[newPos := k.base.id]);
      KeptIndexesOk(b, r);
      assert KaijuIndexOk(b);
      KaijuUpsertOk(b, r, moved);
      MoveKaijuKeepsGridOk(b, k, newPos, r);
    }
  }

  lemma MoveKaijuKeepsGridOk(b: Board, k: Kaiju, newPos: Position, r: Board)
    requires GridOk(b) && IsCurrent(b, k) && IsValidPosition(b, newPos) && k.base.id.kind == KaijuCell
    requires r == b.(kaijus := b.kaijus[k.base.id := k.(base := SetPosition(k.base, newPos))],
                     grid := (b.grid - {k.base.position})[newPos := k.base.id])
    ensures GridOk(r)
  {
    var id := k.base.id;
    forall p | p in r.grid
      ensures IsValidPosition(r, p) && Holds(r, r.grid[p], p)
    {
      if p != newPos {
        assert p in b.grid && p != k.base.position && r.grid[p] == b.grid[p];
        assert Holds(b, b.grid[p], p);
        assert b.grid[p] != id;
      }
    }
  }

  /** The requirement on a removed entity: it is indexed under its identity with this very base. */
  ghost predicate IsIndexed(b: Board, e: Piece) {
    match e
    case KaijuPiece(_) => e.Base().id in b.kaijus && b.kaijus[e.Base().id].base == e.Base()
    case BuildingPiece(_) => e.Base().id in b.buildings && b.buildings[e.Base().id].base == e.Base()
    case ObstaclePiece(_) => e.Base().id in b.obstacles && b.obstacles[e.Base().id].base == e.Base()
    case BedPiece(_) => e.Base().id in b.beds && b.beds[e.Base().id].base == e.Base()
  }

  lemma RemoveKeepsGridOk(b: Board, e: Piece)
    requires GridOk(b) && IsIndexed(b, e)
    ensures GridOk(RemoveEntity(b, e).0)
  {
    var r := RemoveEntity(b, e).0;
    if IsValidPosition(b, e.Base().position) {
      forall p | p in r.grid
        ensures Holds(r, r.grid[p], p)
      {
        assert Holds(b, b.grid[p], p);
        assert p != e.Base().position;
      }
    }
  }

  lemma RemoveKeepsIndexOk(b: Board, e: Piece)
    requires IndexOk(b)
    ensures IndexOk(RemoveEntity(b, e).0)
  {
    var r := RemoveEntity(b, e).0;
    KeptIndexesOk(b, r);
    if IsValidPosition(b, e.Base().position) {
      match e
      case KaijuPiece(_) =>
        assert KaijuIndexOk(r) by { assert KaijuIndexOk(b); }
      case BuildingPiece(_) =>
        assert BuildingIndexOk(r) by { assert BuildingIndexOk(b); }
      case ObstaclePiece(_) =>
        assert ObstacleIndexOk(r) by { assert ObstacleIndexOk(b); }
      case BedPiece(_) =>
        assert BedIndexOk(r) by { assert BedIndexOk(b); }
    }
  }

  lemma RemoveKeepsOrderOk(b: Board, e: Piece)
    requires OrderOk(b) && KaijusValid(b)
    ensures OrderOk(RemoveEntity(b, e).0) && KaijusValid(RemoveEntity(b, e).0)
  {
  }

  /** Removing an indexed entity, given as its current record, keeps the board well formed. */
  lemma RemoveKeepsWf(b: Board, e: Piece)
    requires Wf(b)
    requires e.KaijuPiece? ==> e.Base().id in b.kaijus && b.kaijus[e.Base().id].base == e.Base()
    requires e.BuildingPiece? ==> e.Base().id in b.buildings && b.buildings[e.Base().id].base == e.Base()
    requires e.ObstaclePiece? ==> e.Base().id in b.obstacles && b.obstacles[e.Base().id].base == e.Base()
    requires e.BedPiece? ==> e.Base().id in b.beds && b.beds[e.Base().id].base == e.Base()
    ensures Wf(RemoveEntity(b, e).0)
  {
    assert IsIndexed(b, e);
    RemoveKeepsGridOk(b, e);
    RemoveKeepsIndexOk(b, e);
    RemoveKeepsOrderOk(b, e);
  }

  /**
   * A damaged building leaves the board once no floor is left; otherwise its
   * record is written back (GameBoard.ts:345-347).  Kaiju, obstacles and beds
   * are not touched.
   */
  function Settle(b: Board, bl: Building): (r: Board)
    requires bl.base.id in b.buildings && IsValidPosition(b, bl.base.position)
    ensures bl.base.id in r.buildings <==> !IsDestroyed(bl)
    ensures !IsDestroyed(bl) ==> r == b.(buildings := b.buildings[bl.base.id := bl])
    ensures IsDestroyed(bl) ==> r.grid == b.grid - {bl.base.position} && r.buildings == b.buildings - {bl.base.id}
    ensures SameCounters(b, r) && r.kaijus == b.kaijus && r.kaijuOrder == b.kaijuOrder
    ensures r.obstacles == b.obstacles && r.beds == b.beds
  {
    if IsDestroyed(bl) then RemoveEntity(b, BuildingPiece(bl)).0 else Store(b, BuildingPiece(bl))
  }

  lemma SettleKeepsWf(b: Board, bl: Building)
    requires Wf(b) && bl.base.id in b.buildings && b.buildings[bl.base.id].base == bl.base
    ensures IsValidPosition(b, bl.base.position)
    ensures Wf(Settle(b, bl))
  {
    RemoveKeepsWf(b, BuildingPiece(bl));
    StoreBuildingKeepsWf(b, bl);
  }

  // ---------------------------------------------------------------------
  // Loading a layout
  // ---------------------------------------------------------------------

  /** One entry of a layout, in the order the loader handles them. */
  datatype Spawn =
    | SpawnBuilding(building: BuildingData)
    | SpawnObstacle(obstacle: ObstacleData)
    | SpawnBed(bed: BedData)
    | SpawnKaiju(kaiju: KaijuData)
  {
    function At(): Position {
      match this
      case SpawnBuilding(x) => x.position
      case SpawnObstacle(x) => x.position
      case SpawnBed(x) => x.position
      case SpawnKaiju(x) => x.position
    }
  }

  /** Buildings first, then obstacles, beds and kaiju, each list in its own order. */
  function Spawns(d: MapData): (s: seq<Spawn>)
    ensures |s| == |d.buildings| + |d.obstacles| + |d.beds| + |d.kaijus|
    ensures forall i | 0 <= i < |d.buildings| :: s[i] == SpawnBuilding(d.buildings[i])
    ensures forall i | 0 <= i < |d.obstacles| :: s[|d.buildings| + i] == SpawnObstacle(d.obstacles[i])
    ensures forall i | 0 <= i < |d.beds| :: s[|d.buildings| + |d.obstacles| + i] == SpawnBed(d.beds[i])
    ensures forall i | 0 <= i < |d.kaijus| ::
              s[|d.buildings| + |d.obstacles| + |d.beds| + i] == SpawnKaiju(d.kaijus[i])
  {
    seq(|d.buildings|, i requires 0 <= i < |d.buildings| => SpawnBuilding(d.buildings[i]))
    + seq(|d.obstacles|, i requires 0 <= i < |d.obstacles| => SpawnObstacle(d.obstacles[i]))
    + seq(|d.beds|, i requires 0 <= i < |d.beds| => SpawnBed(d.beds[i]))
    + seq(|d.kaijus|, i requires 0 <= i < |d.kaijus| => SpawnKaiju(d.kaijus[i]))
  }

  /** The entity the loader constructs for an entry, with the next identity. */
  function Create(s: Spawn, serial: nat): (e: Piece)
    ensures e.Base().position == s.At() && e.Base().id == EntityId(e.Base().cellType, serial)
    ensures s.SpawnKaiju? <==> e.KaijuPiece?
    ensures s.SpawnBuilding? <==> e.BuildingPiece?
    ensures s.SpawnObstacle? <==> e.ObstaclePiece?
    ensures s.SpawnBed? <==> e.BedPiece?
    ensures e.KaijuPiece? ==> e.Base().cellType == KaijuCell && Kaijus.Valid(e.kaiju)
    ensures e.BuildingPiece? ==> e.Base().cellType == BuildingCell
    ensures e.ObstaclePiece? ==> e.Base().cellType == ObstacleCell
    ensures e.BedPiece? ==> e.Base().cellType == BedCell
    ensures s.SpawnBuilding? ==> e.building == NewBuilding(s.building.position, s.building.buildingType, serial)
    ensures s.SpawnObstacle? ==> e.obstacle == NewObstacle(s.obstacle.position, s.obstacle.obstacleType, serial)
    ensures s.SpawnBed? ==> e.bed == NewBed(s.bed.position, s.bed.kaijuType, s.bed.tier, serial)
    ensures s.SpawnKaiju? ==> e.kaiju == NewKaiju(s.kaiju.position, s.kaiju.kaijuType, Some(s.kaiju.direction), serial)
  {
    match s
    case SpawnBuilding(x) => BuildingPiece(NewBuilding(x.position, x.buildingType, serial))
    case SpawnObstacle(x) => ObstaclePiece(NewObstacle(x.position, x.obstacleType, serial))
    case SpawnBed(x) => BedPiece(NewBed(x.position, x.kaijuType, x.tier, serial))
    case SpawnKaiju(x) => KaijuPiece(NewKaiju(x.position, x.kaijuType, Some(x.direction), serial))
  }

  /** A kaiju as the constructor leaves it. */
  predicate IsNewKaiju(k: Kaiju) {
    k.alive && !k.reachedBed && !k.immobilized && k.power == KaijuInitialPower(k.kaijuType)
  }

  /** The cells of the entries that lie on the board. */
  function SpawnCells(b: Board, s: seq<Spawn>): set<Position> {
    set i | 0 <= i < |s| && IsValidPosition(b, s[i].At()) :: s[i].At()
  }

  /**
   * Constructs and places every entry in order; entries off the board are
   * constructed but not placed.
   */
  function LoadAll(b: Board, s: seq<Spawn>): (r: Board)
    ensures r.rows == b.rows && r.cols == b.cols && r.moveLimit == b.moveLimit && r.currentMove == b.currentMove
    ensures r.budget == b.budget && r.initialBudget == b.initialBudget && r.score == b.score
    decreases |s|
  {
    if s == [] then b
    else
      var b1 := b.(nextSerial := b.nextSerial + 1);
      var e := Create(s[0], b.nextSerial);
      LoadAll(PlaceEntity(b1, e).0, s[1..])
  }

  /** The loader's next entity, with the serial just issued, is fresh for the board. */
  lemma CreateIsFresh(b: Board, s: Spawn)
    requires Wf(b)
    ensures Wf(b.(nextSerial := b.nextSerial + 1))
    ensures IsFreshFor(b.(nextSerial := b.nextSerial + 1), Create(s, b.nextSerial))
  {
    var b1 := b.(nextSerial := b.nextSerial + 1);
    assert IndexOk(b);
    assert GridOk(b1) by {
      forall p | p in b1.grid ensures Holds(b1, b1.grid[p], p) {
        assert Holds(b, b.grid[p], p);
      }
    }
    var id := Create(s, b.nextSerial).Base().id;
    assert id !in b.kaijus && id !in b.buildings && id !in b.obstacles && id !in b.beds;
  }

  /** Loading keeps the board well formed: every entity it places carries a freshly issued identity. */
  lemma {:induction false} LoadAllKeepsWf(b: Board, s: seq<Spawn>)
    requires Wf(b)
    ensures Wf(LoadAll(b, s))
    decreases |s|
  {
    if s != [] {
      var b2 := PlaceEntity(b.(nextSerial := b.nextSerial + 1), Create(s[0], b.nextSerial)).0;
      assert LoadAll(b, s) == LoadAll(b2, s[1..]);
      LoadOneKeepsWf(b, s[0]);
      LoadAllKeepsWf(b2, s[1..]);
    }
  }

  lemma LoadOneKeepsWf(b: Board, sp: Spawn)
    requires Wf(b)
    ensures Wf(PlaceEntity(b.(nextSerial := b.nextSerial + 1), Create(sp, b.nextSerial)).0)
  {
    CreateIsFresh(b, sp);
    PlaceFreshKeepsWf(b.(nextSerial := b.nextSerial + 1), Create(sp, b.nextSerial));
  }

  /** After loading, the occupied cells are the old ones plus the cells of the in-bounds entries. */
  lemma {:induction false} LoadAllFillsCells(b: Board, s: seq<Spawn>)
    ensures LoadAll(b, s).grid.Keys == b.grid.Keys + SpawnCells(b, s)
    decreases |s|
  {
    if s == [] {
      assert SpawnCells(b, s) == {};
    } else {
      var b1 := b.(nextSerial := b.nextSerial + 1);
      var e := Create(s[0], b.nextSerial);
      var b2 := PlaceEntity(b1, e).0;
      LoadAllFillsCells(b2, s[1..]);
      assert LoadAll(b, s) == LoadAll(b2, s[1..]);
      assert b2.grid.Keys == b.grid.Keys + (if IsValidPosition(b, s[0].At()) then {s[0].At()} else {});
      SpawnCellsCons(b, b2, s);
    }
  }

  /** The cells of a non-empty list of entries: the first entry's cell, if on the board, and the rest's. */
  lemma SpawnCellsCons(b: Board, b2: Board, s: seq<Spawn>)
    requires s != [] && b2.rows == b.rows && b2.cols == b.cols
    ensures SpawnCells(b, s) == (if IsValidPosition(b, s[0].At()) then {s[0].At()} else {}) + SpawnCells(b2, s[1..])
  {
    assert forall i | 1 <= i < |s| :: s[i] == s[1..][i - 1];
    assert forall i | 0 <= i < |s[1..]| :: s[1..][i] == s[i + 1];
  }

  /** Loading appends to the kaiju order and adds only kaiju fresh from the constructor. */
  lemma {:induction false} LoadAllAddsNewKaijus(b: Board, s: seq<Spawn>)
    ensures var r := LoadAll(b, s);
            && |b.kaijuOrder| <= |r.kaijuOrder| && r.kaijuOrder[..|b.kaijuOrder|] == b.kaijuOrder
            && forall id | id in r.kaijus :: (id in b.kaijus && r.kaijus[id] == b.kaijus[id]) || IsNewKaiju(r.kaijus[id])
    decreases |s|
  {
    if s != [] {
      var b1 := b.(nextSerial := b.nextSerial + 1);
      var e := Create(s[0], b.nextSerial);
      var b2 := PlaceEntity(b1, e).0;
      LoadAllAddsNewKaijus(b2, s[1..]);
      var r := LoadAll(b2, s[1..]);
      assert r == LoadAll(b, s);
      assert b2.kaijuOrder[..|b.kaijuOrder|] == b.kaijuOrder;
      assert r.kaijuOrder[..|b.kaijuOrder|] == r.kaijuOrder[..|b2.kaijuOrder|][..|b.kaijuOrder|];
    }
  }

  /** Every indexed identity was issued by the board. */
  ghost predicate Issued(b: Board) {
    && (forall id | id in b.kaijus :: id.serial < b.nextSerial)
    && (forall id | id in b.buildings :: id.serial < b.nextSerial)
    && (forall id | id in b.obstacles :: id.serial < b.nextSerial)
    && (forall id | id in b.beds :: id.serial < b.nextSerial)
  }

  /** Every record indexed on `b` is indexed unchanged on `r`. */
  ghost predicate KeepsRecords(b: Board, r: Board) {
    && (forall id | id in b.kaijus :: id in r.kaijus && r.kaijus[id] == b.kaijus[id])
    && (forall id | id in b.buildings :: id in r.buildings && r.buildings[id] == b.buildings[id])
    && (forall id | id in b.obstacles :: id in r.obstacles && r.obstacles[id] == b.obstacles[id])
    && (forall id | id in b.beds :: id in r.beds && r.beds[id] == b.beds[id])
  }

  /** The index of `e`'s kind files exactly `e` under its identity. */
  ghost predicate Installed(b: Board, e: Piece) {
    match e
    case KaijuPiece(k) => k.base.id in b.kaijus && b.kaijus[k.base.id] == k
    case BuildingPiece(bl) => bl.base.id in b.buildings && b.buildings[bl.base.id] == bl
    case ObstaclePiece(o) => o.base.id in b.obstacles && b.obstacles[o.base.id] == o
    case BedPiece(bd) => bd.base.id in b.beds && b.beds[bd.base.id] == bd
  }

  /** The cells the entries name, on the board or not. */
  function EntryCells(s: seq<Spawn>): set<Position> {
    set i | 0 <= i < |s| :: s[i].At()
  }

  /**
   * Loading one entry: the serial is issued, the entity is placed, and every
   * record indexed before stays as it was.
   */
  lemma LoadOneKeepsRecords(b: Board, sp: Spawn)
    requires Issued(b)
    ensures var b2 := PlaceEntity(b.(nextSerial := b.nextSerial + 1), Create(sp, b.nextSerial)).0;
            Issued(b2) && KeepsRecords(b, b2) && b2.nextSerial == b.nextSerial + 1
            && (IsValidPosition(b, sp.At()) ==> Installed(b2, Create(sp, b.nextSerial)))
  {
  }

  lemma KeepsRecordsTransitive(a: Board, b: Board, c: Board)
    requires KeepsRecords(a, b) && KeepsRecords(b, c)
    ensures KeepsRecords(a, c)
  {
  }

  lemma InstalledStays(b: Board, r: Board, e: Piece)
    requires KeepsRecords(b, r) && Installed(b, e)
    ensures Installed(r, e)
  {
  }

  /** Loading never disturbs a record that was already indexed. */
  lemma {:induction false} LoadAllKeepsRecords(b: Board, s: seq<Spawn>)
    requires Issued(b)
    ensures KeepsRecords(b, LoadAll(b, s))
    decreases |s|
  {
    if s != [] {
      var b2 := PlaceEntity(b.(nextSerial := b.nextSerial + 1), Create(s[0], b.nextSerial)).0;
      LoadOneKeepsRecords(b, s[0]);
      LoadAllKeepsRecords(b2, s[1..]);
      assert LoadAll(b, s) == LoadAll(b2, s[1..]);
      KeepsRecordsTransitive(b, b2, LoadAll(b2, s[1..]));
    }
  }

  /** Every on-board entry ends up indexed as the entity built from it with the serial issued to it. */
  lemma {:induction false} LoadAllInstalls(b: Board, s: seq<Spawn>)
    requires Issued(b)
    ensures forall i | 0 <= i < |s| && IsValidPosition(b, s[i].At()) :: Installed(LoadAll(b, s), Create(s[i], b.nextSerial + i))
    decreases |s|
  {
    if s != [] {
      var b2 := PlaceEntity(b.(nextSerial := b.nextSerial + 1), Create(s[0], b.nextSerial)).0;
      var r := LoadAll(b2, s[1..]);
      assert LoadAll(b, s) == r;
      LoadOneKeepsRecords(b, s[0]);
      LoadAllInstalls(b2, s[1..]);
      forall i | 0 <= i < |s| && IsValidPosition(b, s[i].At())
        ensures Installed(r, Create(s[i], b.nextSerial + i))
      {
        if i == 0 {
          LoadAllKeepsRecords(b2, s[1..]);
          InstalledStays(b2, r, Create(s[0], b.nextSerial));
        } else {
          assert s[i] == s[1..][i - 1] && b.nextSerial + i == b2.nextSerial + (i - 1);
        }
      }
    }
  }

  /** A cell no entry names keeps what it held. */
  lemma {:induction false} LoadAllGridFrame(b: Board, s: seq<Spawn>, p: Position)
    requires p in b.grid && p !in EntryCells(s)
    ensures p in LoadAll(b, s).grid && LoadAll(b, s).grid[p] == b.grid[p]
    decreases |s|
  {
    if s != [] {
      var b2 := PlaceEntity(b.(nextSerial := b.nextSerial + 1), Create(s[0], b.nextSerial)).0;
      assert LoadAll(b, s) == LoadAll(b2, s[1..]);
      assert s[0].At() in EntryCells(s);
      assert EntryCells(s[1..]) <= EntryCells(s) by {
        forall q | q in EntryCells(s[1..]) ensures q in EntryCells(s) {
          var j :| 0 <= j < |s[1..]| && s[1..][j].At() == q;
          assert s[j + 1].At() == q;
        }
      }
      LoadAllGridFrame(b2, s[1..], p);
    }
  }

  /**
   * A shared cell goes to the last entry naming it: an on-board entry that no
   * later entry overwrites leaves its cell holding the entity built from it.
   */
  lemma {:induction false} LoadAllLastEntryWins(b: Board, s: seq<Spawn>, i: int)
    requires 0 <= i < |s| && IsValidPosition(b, s[i].At()) && s[i].At() !in EntryCells(s[i + 1..])
    ensures s[i].At() in LoadAll(b, s).grid
    ensures LoadAll(b, s).grid[s[i].At()] == Create(s[i], b.nextSerial + i).Base().id
    decreases |s|
  {
    var b2 := PlaceEntity(b.(nextSerial := b.nextSerial + 1), Create(s[0], b.nextSerial)).0;
    assert LoadAll(b, s) == LoadAll(b2, s[1..]);
    if i == 0 {
      LoadAllGridFrame(b2, s[1..], s[0].At());
    } else {
      assert s[1..][i - 1] == s[i] && s[1..][i..] == s[i + 1..];
      LoadAllLastEntryWins(b2, s[1..], i - 1);
    }
  }

  /**
   * The kaiju identities loading appends, in order: one per on-board kaiju
   * entry, by increasing serial, hence in entry order.
   */
  ghost predicate LoadedKaijuOrder(b: Board, s: seq<Spawn>, ids: seq<EntityId>) {
    && (forall i, j | 0 <= i < j < |ids| :: ids[i].serial < ids[j].serial)
    && (forall i | 0 <= i < |s| ::
          EntityId(KaijuCell, b.nextSerial + i) in ids <==> s[i].SpawnKaiju? && IsValidPosition(b, s[i].At()))
    && (forall id | id in ids :: id.kind == KaijuCell && b.nextSerial <= id.serial < b.nextSerial + |s|)
  }

  /** Loading appends the identities of the on-board kaiju entries to the kaiju order, in entry order. */
  lemma {:induction false} LoadAllAppendsKaijuInOrder(b: Board, s: seq<Spawn>)
    requires forall id | id in b.kaijus :: id.serial < b.nextSerial
    ensures var r := LoadAll(b, s);
            && |b.kaijuOrder| <= |r.kaijuOrder| && r.kaijuOrder[..|b.kaijuOrder|] == b.kaijuOrder
            && LoadedKaijuOrder(b, s, r.kaijuOrder[|b.kaijuOrder|..])
    decreases |s|
  {
    var r := LoadAll(b, s);
    if s == [] {
      assert r.kaijuOrder[|b.kaijuOrder|..] == [];
    } else {
      var b2 := PlaceEntity(b.(nextSerial := b.nextSerial + 1), Create(s[0], b.nextSerial)).0;
      var head := if s[0].SpawnKaiju? && IsValidPosition(b, s[0].At()) then [EntityId(KaijuCell, b.nextSerial)] else [];
      LoadOneAppends(b, s[0]);
      assert r == LoadAll(b2, s[1..]);
      LoadAllAppendsKaijuInOrder(b2, s[1..]);
      AppendedParts(b.kaijuOrder, head, r.kaijuOrder);
      LoadedKaijuOrderCons(b, b2, s, head, r.kaijuOrder[|b2.kaijuOrder|..]);
    }
  }

  /** A list that starts with `a + h` starts with `a`, and what follows `a` is `h` and then the rest. */
  lemma AppendedParts<T>(a: seq<T>, h: seq<T>, r: seq<T>)
    requires |a + h| <= |r| && r[..|a + h|] == a + h
    ensures |a| <= |r| && r[..|a|] == a
    ensures r[|a|..] == h + r[|a + h|..]
  {
    assert r[..|a|] == r[..|a + h|][..|a|];
  }

  /** Loading one entry appends its identity to the kaiju order exactly when it is an on-board kaiju. */
  lemma LoadOneAppends(b: Board, sp: Spawn)
    requires forall id | id in b.kaijus :: id.serial < b.nextSerial
    ensures var b2 := PlaceEntity(b.(nextSerial := b.nextSerial + 1), Create(sp, b.nextSerial)).0;
            && b2.nextSerial == b.nextSerial + 1 && b2.rows == b.rows && b2.cols == b.cols
            && (forall id | id in b2.kaijus :: id.serial < b2.nextSerial)
            && b2.kaijuOrder == b.kaijuOrder
                 + if sp.SpawnKaiju? && IsValidPosition(b, sp.At()) then [EntityId(KaijuCell, b.nextSerial)] else []
  {
    assert EntityId(KaijuCell, b.nextSerial) !in b.kaijus;
  }

  lemma LoadedKaijuOrderCons(b: Board, b2: Board, s: seq<Spawn>, head: seq<EntityId>, rest: seq<EntityId>)
    requires s != [] && b2.nextSerial == b.nextSerial + 1 && b2.rows == b.rows && b2.cols == b.cols
    requires head == if s[0].SpawnKaiju? && IsValidPosition(b, s[0].At()) then [EntityId(KaijuCell, b.nextSerial)] else []
    requires LoadedKaijuOrder(b2, s[1..], rest)
    ensures LoadedKaijuOrder(b, s, head + rest)
  {
    var ids := head + rest;
    forall i | 0 <= i < |s|
      ensures EntityId(KaijuCell, b.nextSerial + i) in ids <==> s[i].SpawnKaiju? && IsValidPosition(b, s[i].At())
    {
      if i > 0 {
        assert s[1..][i - 1] == s[i] && b2.nextSerial + (i - 1) == b.nextSerial + i;
      }
    }
    forall i, j | 0 <= i < j < |ids| ensures ids[i].serial < ids[j].serial {
      if i < |head| {
        assert ids[j] == rest[j - |head|] && ids[j] in rest;
      } else {
        assert ids[i] == rest[i - |head|] && ids[j] == rest[j - |head|];
      }
    }
  }

  /**
   * Loads a layout onto the board as it stands (the session wrapper resets
   * first): exactly the in-bounds entries' cells become occupied, the kaiju
   * order only grows at its end, and every kaiju loaded starts alive, mobile,
   * away from its bed and at its initial power.  What each index holds is
   * stated by `LoadMapInstalls`, `LoadMapAppendsKaijuInOrder`,
   * `LoadMapListsKaiju`, `LoadMapIndexesKaiju` and `LoadMapLastEntryWins`.
   */
  function LoadMap(b: Board, d: MapData): (r: Board)
    requires Wf(b)
    ensures Wf(r)
    ensures r.rows == b.rows && r.cols == b.cols && r.moveLimit == b.moveLimit && r.currentMove == b.currentMove
    ensures r.budget == b.budget && r.initialBudget == b.initialBudget && r.score == b.score
    ensures r.grid.Keys == b.grid.Keys + SpawnCells(b, Spawns(d))
    ensures |b.kaijuOrder| <= |r.kaijuOrder| && r.kaijuOrder[..|b.kaijuOrder|] == b.kaijuOrder
    ensures forall id | id in r.kaijus :: (id in b.kaijus && r.kaijus[id] == b.kaijus[id]) || IsNewKaiju(r.kaijus[id])
  {
    var s := Spawns(d);
    assert IndexOk(b);
    LoadAllKeepsWf(b, s);
    LoadAllFillsCells(b, s);
    LoadAllAddsNewKaijus(b, s);
    LoadAllAppendsKaijuInOrder(b, s);
    LoadAll(b, s)
  }

  /** Loading appends the on-board kaiju entries' identities to the kaiju order, by increasing serial. */
  lemma LoadMapAppendsKaijuInOrder(b: Board, d: MapData)
    requires Wf(b)
    ensures LoadedKaijuOrder(b, Spawns(d), LoadMap(b, d).kaijuOrder[|b.kaijuOrder|..])
  {
    assert IndexOk(b);
    LoadAllAppendsKaijuInOrder(b, Spawns(d));
  }

  /** After loading, every on-board entry is indexed as the entity built from it with the serial issued to it. */
  lemma LoadMapInstalls(b: Board, d: MapData, i: int)
    requires Wf(b)
    requires 0 <= i < |Spawns(d)| && IsValidPosition(b, Spawns(d)[i].At())
    ensures Installed(LoadMap(b, d), Create(Spawns(d)[i], b.nextSerial + i))
  {
    LoadAllInstalls(b, Spawns(d));
  }

  /** The identity loading issues to the layout's `k`-th kaiju: kaiju entries come after every other entry. */
  function LoadedKaijuId(b: Board, d: MapData, k: int): EntityId
    requires 0 <= k
  {
    EntityId(KaijuCell, b.nextSerial + |d.buildings| + |d.obstacles| + |d.beds| + k)
  }

  /** The layout's `k`-th kaiju is the entry after all buildings, obstacles and beds and the `k` kaiju before it. */
  lemma SpawnsKaijuAt(d: MapData, k: int)
    requires 0 <= k < |d.kaijus|
    ensures Spawns(d)[|d.buildings| + |d.obstacles| + |d.beds| + k] == SpawnKaiju(d.kaijus[k])
  {
  }

  /** After loading, the layout's `k`-th kaiju was appended to the kaiju order exactly when it lies on the board. */
  lemma LoadMapListsKaiju(b: Board, d: MapData, k: int)
    requires Wf(b) && 0 <= k < |d.kaijus|
    ensures LoadedKaijuId(b, d, k) in LoadMap(b, d).kaijuOrder[|b.kaijuOrder|..] <==> IsValidPosition(b, d.kaijus[k].position)
  {
    var i := |d.buildings| + |d.obstacles| + |d.beds| + k;
    SpawnsKaijuAt(d, k);
    assert IndexOk(b);
    LoadAllListsKaiju(b, Spawns(d), i, d.kaijus[k], LoadedKaijuId(b, d, k));
    assert LoadMap(b, d) == LoadAll(b, Spawns(d));
  }

  lemma LoadAllListsKaiju(b: Board, s: seq<Spawn>, i: int, x: KaijuData, id: EntityId)
    requires forall id | id in b.kaijus :: id.serial < b.nextSerial
    requires 0 <= i < |s| && s[i] == SpawnKaiju(x) && id == EntityId(KaijuCell, b.nextSerial + i)
    ensures |b.kaijuOrder| <= |LoadAll(b, s).kaijuOrder|
    ensures id in LoadAll(b, s).kaijuOrder[|b.kaijuOrder|..] <==> IsValidPosition(b, x.position)
  {
    LoadAllAppendsKaijuInOrder(b, s);
    LoadedKaijuListed(b, s, LoadAll(b, s).kaijuOrder[|b.kaijuOrder|..], i);
  }

  /**
   * After loading, an on-board kaiju of the layout is indexed as a new kaiju
   * of its type, cell and direction under the identity issued to it.
   */
  lemma LoadMapIndexesKaiju(b: Board, d: MapData, k: int)
    requires Wf(b) && 0 <= k < |d.kaijus| && IsValidPosition(b, d.kaijus[k].position)
    ensures LoadedKaijuId(b, d, k) in LoadMap(b, d).kaijus
    ensures LoadMap(b, d).kaijus[LoadedKaijuId(b, d, k)]
            == NewKaiju(d.kaijus[k].position, d.kaijus[k].kaijuType, Some(d.kaijus[k].direction), LoadedKaijuId(b, d, k).serial)
  {
    var i := |d.buildings| + |d.obstacles| + |d.beds| + k;
    SpawnsKaijuAt(d, k);
    assert IndexOk(b);
    LoadAllIndexesKaiju(b, Spawns(d), i, d.kaijus[k], LoadedKaijuId(b, d, k).serial);
    assert LoadMap(b, d) == LoadAll(b, Spawns(d));
  }

  lemma LoadAllIndexesKaiju(b: Board, s: seq<Spawn>, i: int, x: KaijuData, serial: nat)
    requires Issued(b)
    requires 0 <= i < |s| && s[i] == SpawnKaiju(x) && IsValidPosition(b, x.position) && serial == b.nextSerial + i
    ensures var r := LoadAll(b, s);
            EntityId(KaijuCell, serial) in r.kaijus
            && r.kaijus[EntityId(KaijuCell, serial)] == NewKaiju(x.position, x.kaijuType, Some(x.direction), serial)
  {
    LoadAllInstalls(b, s);
    assert Create(s[i], b.nextSerial + i) == KaijuPiece(NewKaiju(x.position, x.kaijuType, Some(x.direction), serial));
  }

  /** The membership clause of `LoadedKaijuOrder` for one entry. */
  lemma LoadedKaijuListed(b: Board, s: seq<Spawn>, ids: seq<EntityId>, i: int)
    requires LoadedKaijuOrder(b, s, ids) && 0 <= i < |s|
    ensures EntityId(KaijuCell, b.nextSerial + i) in ids <==> s[i].SpawnKaiju? && IsValidPosition(b, s[i].At())
  {
  }

  /** After loading, an on-board entry that no later entry overwrites holds its cell. */
  lemma LoadMapLastEntryWins(b: Board, d: MapData, i: int)
    requires Wf(b)
    requires 0 <= i < |Spawns(d)| && IsValidPosition(b, Spawns(d)[i].At())
    requires Spawns(d)[i].At() !in EntryCells(Spawns(d)[i + 1..])
    ensures Spawns(d)[i].At() in LoadMap(b, d).grid
    ensures LoadMap(b, d).grid[Spawns(d)[i].At()] == Create(Spawns(d)[i], b.nextSerial + i).Base().id
  {
    LoadAllLastEntryWins(b, Spawns(d), i);
  }

  // ---------------------------------------------------------------------
  // Gates and getters
  // ---------------------------------------------------------------------

  /**
   * The game is over once the move limit is reached or no indexed kaiju is
   * still both alive and away from its bed (vacuously so with no kaiju).
   */
  function IsGameOver(b: Board): (r: bool)
    requires OrderOk(b)
    ensures r <==> b.currentMove >= b.moveLimit || forall id | id in b.kaijus :: !b.kaijus[id].alive || b.kaijus[id].reachedBed
  {
    b.currentMove >= b.moveLimit || AllDone(b, b.kaijuOrder)
  }

  /** `every(kaiju => !alive || reachedBed)` over the listed kaiju. */
  function AllDone(b: Board, ids: seq<EntityId>): (r: bool)
    requires forall id | id in ids :: id in b.kaijus
    ensures r <==> forall id | id in ids :: !b.kaijus[id].alive || b.kaijus[id].reachedBed
  {
    if ids == [] then true
    else
      assert forall id | id in ids[1..] :: id in ids;
      assert forall id | id in ids :: id == ids[0] || id in ids[1..];
      (!b.kaijus[ids[0]].alive || b.kaijus[ids[0]].reachedBed) && AllDone(b, ids[1..])
  }

  /** The single gate for paid actions: an affordable amount is debited exactly, anything else changes nothing. */
  function SpendBudget(b: Board, amount: int): (r: (Board, bool))
    ensures r.1 <==> amount <= b.budget
    ensures r.1 ==> r.0 == b.(budget := b.budget - amount)
    ensures !r.1 ==> r.0 == b
  {
    if amount > b.budget then (b, false) else (b.(budget := b.budget - amount), true)
  }


  function GetScore(b: Board): int { b.score }
  function GetCurrentMove(b: Board): int { b.currentMove }
  function GetMoveLimit(b: Board): int { b.moveLimit }
  function GetBudget(b: Board): int { b.budget }
  function GetRows(b: Board): int { b.rows }
  function GetCols(b: Board): int { b.cols }
  function GetGrid(b: Board): map<Position, EntityId> { b.grid }

  /** The kaiju in index insertion order. */
  function GetKaijus(b: Board): (ks: seq<Kaiju>)
    requires OrderOk(b)
    ensures |ks| == |b.kaijuOrder|
    ensures forall i | 0 <= i < |ks| :: ks[i] == b.kaijus[b.kaijuOrder[i]]
  {
    seq(|b.kaijuOrder|, i requires 0 <= i < |b.kaijuOrder| && OrderOk(b) => b.kaijus[b.kaijuOrder[i]])
  }

  function GetBuildings(b: Board): set<Building> { b.buildings.Values }
  function GetObstacles(b: Board): set<Obstacle> { b.obstacles.Values }
  function GetBeds(b: Board): set<Bed> { b.beds.Values }
}
