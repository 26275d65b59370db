/**
 * One step of the game (GameBoard.processTurn, src/models/GameBoard.ts):
 * bump the move counter, order the kaiju that are alive and away from their
 * beds by ascending power, and let each in turn try one cell forward,
 * resolving whatever occupies that cell.
 */
module Turn {
  import opened Wrappers
  import opened Types
  import opened Entities
  import opened Kaijus
  import opened Buildings
  import opened Beds
  import opened Obstacles
  import opened GameBoard
  import opened StableSort
  import opened Sequences

  // ---------------------------------------------------------------------
  // Turn order
  // ---------------------------------------------------------------------

  predicate Active(k: Kaiju) {
    k.alive && !k.reachedBed
  }

  /** The listed kaiju that are alive and not home, in list order. */
  function Eligible(b: Board, ids: seq<EntityId>): (r: seq<EntityId>)
    requires forall id | id in ids :: id in b.kaijus
    ensures forall id | id in r :: id in ids && Active(b.kaijus[id])
    ensures forall id | id in ids && Active(b.kaijus[id]) :: id in r
    ensures Subsequence(r, ids)
  {
    if ids == [] then []
    else
      assert forall id | id in ids[1..] :: id in ids;
      assert forall id | id in ids :: id == ids[0] || id in ids[1..];
      var rest := Eligible(b, ids[1..]);
      if Active(b.kaijus[ids[0]]) then
        assert ([ids[0]] + rest)[1..] == rest;
        [ids[0]] + rest
      else rest
  }

  /** The sort key: a kaiju's power when the turn starts. */
  function PowerOf(b: Board): EntityId -> int {
    id => if id in b.kaijus then b.kaijus[id].power else 0
  }

  /** The eligible kaiju, stably sorted by ascending power. */
  function TurnOrder(b: Board): (r: seq<EntityId>)
    requires OrderOk(b)
    ensures forall id | id in r :: id in b.kaijus && Active(b.kaijus[id])
    ensures Ascending(r, PowerOf(b))
  {
    var e := Eligible(b, b.kaijuOrder);
    SortKeepsLength(e, PowerOf(b));
    SortIsAscending(e, PowerOf(b));
    SortBy(e, PowerOf(b))
  }

  /**
   * The turn order holds exactly the kaiju alive and away from their beds,
   * weakest first, and kaiju of equal power keep index insertion order.
   */
  lemma TurnOrderIsSortedEligible(b: Board, v: int)
    requires OrderOk(b)
    ensures forall id :: id in TurnOrder(b) <==> id in b.kaijus && Active(b.kaijus[id])
    ensures Ascending(TurnOrder(b), PowerOf(b))
    ensures WithKey(TurnOrder(b), PowerOf(b), v) == WithKey(Eligible(b, b.kaijuOrder), PowerOf(b), v)
    ensures Subsequence(WithKey(TurnOrder(b), PowerOf(b), v), b.kaijuOrder)
  {
    var e := Eligible(b, b.kaijuOrder);
    SortKeepsLength(e, PowerOf(b));
    SortIsAscending(e, PowerOf(b));
    SortIsStable(e, PowerOf(b), v);
    WithKeyIsSubsequence(e, PowerOf(b), v);
    SubsequenceTransitive(WithKey(e, PowerOf(b), v), e, b.kaijuOrder);
  }

  /**
   * Kaiju of equal power act in the order of any list the kaiju order was
   * taken from, such as the order the layout listed them in when loaded.
   */
  lemma TiesFollowEarlierOrder(b: Board, earlier: seq<EntityId>, v: int, i: int, j: int)
    requires OrderOk(b) && Subsequence(b.kaijuOrder, earlier)
    requires 0 <= i < j < |WithKey(TurnOrder(b), PowerOf(b), v)|
    ensures var ties := WithKey(TurnOrder(b), PowerOf(b), v);
            exists i', j' :: 0 <= i' < j' < |earlier| && earlier[i'] == ties[i] && earlier[j'] == ties[j]
  {
    TurnOrderIsSortedEligible(b, v);
    var ties := WithKey(TurnOrder(b), PowerOf(b), v);
    SubsequenceTransitive(ties, b.kaijuOrder, earlier);
    SubsequenceKeepsOrder(ties, earlier, i, j);
  }

  // ---------------------------------------------------------------------
  // What a step may change
  // ---------------------------------------------------------------------

  /**
   * A step keeps size, limits, counters and budget, never lowers the score,
   * only drops kaiju from the order (the rest keep their places), never adds
   * an entity, never sends a kaiju away from its bed, and never touches
   * obstacles or beds.
   */
  ghost predicate Progress(b: Board, r: Board) {
    && r.rows == b.rows && r.cols == b.cols && r.moveLimit == b.moveLimit
    && r.currentMove == b.currentMove && r.budget == b.budget && r.initialBudget == b.initialBudget
    && r.nextSerial == b.nextSerial
    && r.score >= b.score
    && Subsequence(r.kaijuOrder, b.kaijuOrder)
    && r.kaijus.Keys <= b.kaijus.Keys
    && (forall id | id in r.kaijus :: b.kaijus[id].reachedBed ==> r.kaijus[id].reachedBed)
    && r.buildings.Keys <= b.buildings.Keys
    && r.obstacles == b.obstacles && r.beds == b.beds
  }

  lemma ProgressTransitive(a: Board, b: Board, c: Board)
    requires Progress(a, b) && Progress(b, c)
    ensures Progress(a, c)
  {
    SubsequenceTransitive(c.kaijuOrder, b.kaijuOrder, a.kaijuOrder);
  }

  /** `k` is the record the kaiju index holds under its own identity. */
  ghost predicate Indexed(b: Board, k: Kaiju) {
    k.base.id in b.kaijus && b.kaijus[k.base.id] == k
  }

  /** The kaiju, moved to `p`. */
  function At(k: Kaiju, p: Position): Kaiju {
    k.(base := SetPosition(k.base, p))
  }

  // ---------------------------------------------------------------------
  // Resolving the occupant of the target cell
  // ---------------------------------------------------------------------

  /**
   * Kaiju against kaiju: a strictly stronger mover kills and removes the
   * opponent and takes its cell; a strictly weaker mover is killed but stays
   * where it is, still indexed and still on the grid; equal power changes
   * nothing.
   */
  function Fight(b: Board, k: Kaiju, target: Position, oid: EntityId): (r: Board)
    requires Indexed(b, k) && IsValidPosition(b, target)
    requires oid in b.kaijus && b.kaijus[oid].base.position == target && b.kaijus[oid].base.id == oid
    ensures r.score == b.score
    ensures k.power > b.kaijus[oid].power ==>
              && oid !in r.kaijus && k.base.id in r.kaijus
              && r.kaijus[k.base.id] == At(k, target) && target in r.grid && r.grid[target] == k.base.id
    ensures k.power > b.kaijus[oid].power ==>
              r == b.(kaijus := (b.kaijus - {oid})[k.base.id := At(k, target)],
                      kaijuOrder := Without(b.kaijuOrder, oid),
                      grid := ((b.grid - {target}) - {k.base.position})[target := k.base.id])
    ensures k.power < b.kaijus[oid].power ==> r == b.(kaijus := b.kaijus[k.base.id := Kill(k)])
    ensures k.power == b.kaijus[oid].power ==> r == b
  {
    var opponent := b.kaijus[oid];
    var k2 := Combat(k, opponent).0;
    var opponent2 := Combat(k, opponent).1;
    var won := Combat(k, opponent).2;
    if won then Overpower(b, k2, target, opponent2)
    else Store(Store(b, KaijuPiece(opponent2)), KaijuPiece(k2))
  }

  /**
   * The winning half of a fight: the dead opponent leaves the board and the
   * winner takes its cell.
   */
  function Overpower(b: Board, k: Kaiju, target: Position, loser: Kaiju): (r: Board)
    requires Indexed(b, k) && IsValidPosition(b, target)
    requires loser.base.id in b.kaijus && loser.base.id != k.base.id
    requires b.kaijus[loser.base.id].base.position == target && loser.base.position == target
    ensures r == b.(kaijus := (b.kaijus - {loser.base.id})[k.base.id := At(k, target)],
                    kaijuOrder := Without(b.kaijuOrder, loser.base.id),
                    grid := ((b.grid - {target}) - {k.base.position})[target := k.base.id])
  {
    var b2 := RemoveEntity(b, KaijuPiece(loser)).0;
    assert b2 == b.(kaijus := b.kaijus - {loser.base.id}, kaijuOrder := Without(b.kaijuOrder, loser.base.id),
                    grid := b.grid - {target});
    assert KaijuPiece(k).WithPosition(target) == KaijuPiece(At(k, target));
    MoveEntity(b2, KaijuPiece(k), target).0
  }

  lemma FightKeepsWf(b: Board, k: Kaiju, target: Position, oid: EntityId)
    requires Wf(b) && Indexed(b, k) && IsValidPosition(b, target)
    requires oid in b.kaijus && b.kaijus[oid].base.position == target
    ensures b.kaijus[oid].base.id == oid
    ensures Wf(Fight(b, k, target, oid))
  {
    assert KaijuIndexOk(b);
    var opponent := b.kaijus[oid];
    if k.power > opponent.power {
      FightWonKeepsWf(b, k, target, oid);
    } else if k.power < opponent.power {
      StoreKaijuKeepsWf(b, Kill(k));
      assert Fight(b, k, target, oid) == Store(b, KaijuPiece(Kill(k)));
    }
  }

  lemma FightWonKeepsWf(b: Board, k: Kaiju, target: Position, oid: EntityId)
    requires Wf(b) && Indexed(b, k) && IsValidPosition(b, target)
    requires oid in b.kaijus && b.kaijus[oid].base.position == target && b.kaijus[oid].base.id == oid
    requires k.power > b.kaijus[oid].power
    ensures Wf(Fight(b, k, target, oid))
  {
    var loser := Kill(b.kaijus[oid]);
    RemoveKeepsWf(b, KaijuPiece(loser));
    var b2 := RemoveEntity(b, KaijuPiece(loser)).0;
    assert b2.kaijus == b.kaijus - {oid};
    assert IsCurrent(b2, k);
    MoveKaijuKeepsWf(b2, k, target);
    assert Fight(b, k, target, oid) == MoveEntity(b2, KaijuPiece(k), target).0;
  }

  lemma FightProgress(b: Board, k: Kaiju, target: Position, oid: EntityId)
    requires Indexed(b, k) && IsValidPosition(b, target)
    requires oid in b.kaijus && b.kaijus[oid].base.position == target && b.kaijus[oid].base.id == oid
    ensures Progress(b, Fight(b, k, target, oid))
  {
  }

  /**
   * The damage a kaiju does on entering: a stomp command on the exposed floor
   * breaks every remaining floor, anything else breaks just the exposed one;
   * a building with no floor left is not touched (GameBoard.ts:312-334).
   */
  function Smash(bl: Building): (r: (Building, int))
    ensures bl.floors == 0 ==> r == (bl, 0)
    ensures HasStomp(bl) ==> r == Stomp(bl) && r.0.floors == 0 && r.1 == bl.floors * GetValuePerFloor(bl)
    ensures bl.floors > 0 && !HasStomp(bl) ==> r == BreakFloor(bl) && r.0.floors == bl.floors - 1 && r.1 == GetValuePerFloor(bl)
    ensures r.0.base == bl.base && r.1 >= 0
  {
    var top := bl.floors - 1;
    if top >= 0 then
      var command := GetCommand(bl, top);
      if command.Some? && command.value.kind == StompCommand then Stomp(bl) else BreakFloor(bl)
    else
      (bl, 0)
  }

  /** A power plant doubles the kaiju entering it; other buildings leave it as it is (GameBoard.ts:339-341). */
  function Energise(k: Kaiju, t: BuildingType): (r: Kaiju)
    ensures t == PowerPlant ==> r.power == 2 * k.power
    ensures t != PowerPlant ==> r == k
    ensures r == k.(power := r.power)
    ensures Kaijus.Valid(k) ==> Kaijus.Valid(r)
  {
    if t == PowerPlant then DoublePower(k) else k
  }

  /** Writes the kaiju's record back and adds `value` to the score (GameBoard.ts:336, 399). */
  function Credit(b: Board, k: Kaiju, value: int): (r: Board)
    requires k.base.id in b.kaijus
    ensures r == b.(kaijus := b.kaijus[k.base.id := k], score := b.score + value)
  {
    var b1 := Store(b, KaijuPiece(k));
    b1.(score := b1.score + value)
  }

  lemma CreditKeepsWf(b: Board, k: Kaiju, value: int)
    requires Wf(b) && IsCurrent(b, k)
    ensures Wf(Credit(b, k, value)) && IsCurrent(Credit(b, k, value), k)
  {
    StoreKaijuKeepsWf(b, k);
    CountersKeepWf(Store(b, KaijuPiece(k)), Credit(b, k, value));
  }

  /**
   * Kaiju against building: the score grows by the floors' value, a power
   * plant doubles the mover, a building left with no floor is removed, and
   * the mover always enters the cell (overwriting a surviving building's
   * cell, which stays indexed).
   */
  function EnterBuilding(b: Board, k: Kaiju, target: Position, bid: EntityId): (r: Board)
    requires Indexed(b, k) && IsValidPosition(b, target)
    requires bid in b.buildings && b.buildings[bid].base.id == bid && b.buildings[bid].base.position == target
    ensures var bl := b.buildings[bid];
            && r.score == b.score + Smash(bl).1
            && k.base.id in r.kaijus && target in r.grid && r.grid[target] == k.base.id
            && r.kaijus[k.base.id] == At(Energise(k, bl.buildingType), target)
            && (bid in r.buildings <==> Smash(bl).0.floors > 0)
            && (bid in r.buildings ==> r.buildings[bid] == Smash(bl).0)
    ensures var bl := b.buildings[bid];
            var gone := Smash(bl).0.floors == 0;
            r == b.(score := b.score + Smash(bl).1,
                    kaijus := b.kaijus[k.base.id := At(Energise(k, bl.buildingType), target)],
                    buildings := if gone then b.buildings - {bid} else b.buildings[bid := Smash(bl).0],
                    grid := ((if gone then b.grid - {target} else b.grid) - {k.base.position})[target := k.base.id])
  {
    var bl := b.buildings[bid];
    var bl2 := Smash(bl).0;
    var value := Smash(bl).1;
    var b2 := Credit(b, Energise(k, bl.buildingType), value);
    MoveEntity(Settle(b2, bl2), KaijuPiece(Energise(k, bl.buildingType)), target).0
  }

  lemma EnterBuildingKeepsWf(b: Board, k: Kaiju, target: Position, bid: EntityId)
    requires Wf(b) && Indexed(b, k) && IsValidPosition(b, target)
    requires bid in b.buildings && b.buildings[bid].base.position == target
    ensures b.buildings[bid].base.id == bid
    ensures Wf(EnterBuilding(b, k, target, bid))
  {
    var bl := b.buildings[bid];
    var bl2 := Smash(bl).0;
    var value := Smash(bl).1;
    var k2 := Energise(k, bl.buildingType);
    var b2 := Credit(b, k2, value);
    CreditKeepsWf(b, k2, value);
    SettleKeepsWf(b2, bl2);
    MoveKaijuKeepsWf(Settle(b2, bl2), k2, target);
    assert EnterBuilding(b, k, target, bid) == MoveEntity(Settle(b2, bl2), KaijuPiece(k2), target).0;
  }

  lemma EnterBuildingProgress(b: Board, k: Kaiju, target: Position, bid: EntityId)
    requires Indexed(b, k) && IsValidPosition(b, target)
    requires bid in b.buildings && b.buildings[bid].base.id == bid && b.buildings[bid].base.position == target
    ensures Progress(b, EnterBuilding(b, k, target, bid))
  {
  }

  /**
   * Kaiju against obstacle.  Mud: immobilised, and the kaiju enters.  Spike
   * trap: power halved; a survivor enters, a kaiju left with no power is
   * removed from its own cell.  Boulder: the kaiju turns around and stays.
   * The obstacle itself never changes and stays indexed.
   */
  function EnterObstacle(b: Board, k: Kaiju, target: Position, oid: EntityId): (r: Board)
    requires Indexed(b, k) && IsValidPosition(b, target) && IsValidPosition(b, k.base.position)
    requires oid in b.obstacles
    ensures r.score == b.score && r.obstacles == b.obstacles
    ensures b.obstacles[oid].obstacleType == Mud ==>
              && k.base.id in r.kaijus && r.kaijus[k.base.id] == At(Immobilize(k), target)
              && target in r.grid && r.grid[target] == k.base.id
              && r == b.(kaijus := b.kaijus[k.base.id := At(Immobilize(k), target)],
                         grid := (b.grid - {k.base.position})[target := k.base.id])
    ensures b.obstacles[oid].obstacleType == SpikeTrap && HalfPower(k).alive ==>
              && k.base.id in r.kaijus && r.kaijus[k.base.id] == At(HalfPower(k), target)
              && target in r.grid && r.grid[target] == k.base.id
              && r == b.(kaijus := b.kaijus[k.base.id := At(HalfPower(k), target)],
                         grid := (b.grid - {k.base.position})[target := k.base.id])
    ensures b.obstacles[oid].obstacleType == SpikeTrap && !HalfPower(k).alive ==>
              && k.base.id !in r.kaijus && k.base.position !in r.grid
              && r.kaijuOrder == Without(b.kaijuOrder, k.base.id)
              && r == b.(kaijus := b.kaijus - {k.base.id}, kaijuOrder := Without(b.kaijuOrder, k.base.id),
                         grid := b.grid - {k.base.position})
    ensures b.obstacles[oid].obstacleType == Boulder ==>
              r == b.(kaijus := b.kaijus[k.base.id := ReverseDirection(k)])
  {
    match b.obstacles[oid].obstacleType
    case Mud => EnterMud(b, k, target)
    case SpikeTrap => EnterSpikeTrap(b, k, target)
    case Boulder => EnterBoulder(b, k)
  }

  /** Mud: the kaiju moves onto the cell and is stuck there. */
  function EnterMud(b: Board, k: Kaiju, target: Position): (r: Board)
    requires Indexed(b, k) && IsValidPosition(b, target) && IsValidPosition(b, k.base.position)
    ensures r.score == b.score && r.obstacles == b.obstacles
    ensures && k.base.id in r.kaijus && r.kaijus[k.base.id] == At(Immobilize(k), target)
            && target in r.grid && r.grid[target] == k.base.id
    ensures r == b.(kaijus := b.kaijus[k.base.id := At(Immobilize(k), target)],
                    grid := (b.grid - {k.base.position})[target := k.base.id])
  {
    assert KaijuPiece(Immobilize(k)).WithPosition(target) == KaijuPiece(At(Immobilize(k), target));
    MoveEntity(b, KaijuPiece(Immobilize(k)), target).0
  }

  /** Spike trap: the kaiju loses half its power; it moves on if it survives, else leaves the board. */
  function EnterSpikeTrap(b: Board, k: Kaiju, target: Position): (r: Board)
    requires Indexed(b, k) && IsValidPosition(b, target) && IsValidPosition(b, k.base.position)
    ensures r.score == b.score && r.obstacles == b.obstacles
    ensures HalfPower(k).alive ==>
              && k.base.id in r.kaijus && r.kaijus[k.base.id] == At(HalfPower(k), target)
              && target in r.grid && r.grid[target] == k.base.id
    ensures HalfPower(k).alive ==>
              r == b.(kaijus := b.kaijus[k.base.id := At(HalfPower(k), target)],
                      grid := (b.grid - {k.base.position})[target := k.base.id])
    ensures !HalfPower(k).alive ==>
              && k.base.id !in r.kaijus && k.base.position !in r.grid
              && r.kaijuOrder == Without(b.kaijuOrder, k.base.id)
    ensures !HalfPower(k).alive ==>
              r == b.(kaijus := b.kaijus - {k.base.id}, kaijuOrder := Without(b.kaijuOrder, k.base.id),
                      grid := b.grid - {k.base.position})
  {
    if HalfPower(k).alive then
      assert KaijuPiece(HalfPower(k)).WithPosition(target) == KaijuPiece(At(HalfPower(k), target));
      MoveEntity(b, KaijuPiece(HalfPower(k)), target).0
    else
      RemoveEntity(b, KaijuPiece(HalfPower(k))).0
  }

  /** Boulder: the kaiju stays where it is and turns around. */
  function EnterBoulder(b: Board, k: Kaiju): (r: Board)
    requires Indexed(b, k)
    ensures r == b.(kaijus := b.kaijus[k.base.id := ReverseDirection(k)])
  {
    Store(b, KaijuPiece(ReverseDirection(k)))
  }

  lemma EnterObstacleKeepsWf(b: Board, k: Kaiju, target: Position, oid: EntityId)
    requires Wf(b) && Indexed(b, k) && IsValidPosition(b, target)
    requires oid in b.obstacles
    ensures IsValidPosition(b, k.base.position)
    ensures Wf(EnterObstacle(b, k, target, oid))
  {
    match b.obstacles[oid].obstacleType
    case Mud => MoveKaijuKeepsWf(b, Immobilize(k), target);
    case SpikeTrap =>
      if HalfPower(k).alive {
        MoveKaijuKeepsWf(b, HalfPower(k), target);
      } else {
        RemoveKeepsWf(b, KaijuPiece(HalfPower(k)));
      }
    case Boulder => StoreKaijuKeepsWf(b, ReverseDirection(k));
  }

  lemma EnterObstacleProgress(b: Board, k: Kaiju, target: Position, oid: EntityId)
    requires Indexed(b, k) && IsValidPosition(b, target) && IsValidPosition(b, k.base.position)
    requires oid in b.obstacles
    ensures Progress(b, EnterObstacle(b, k, target, oid))
  {
  }

  /** How many of the listed kaiju have reached their beds. */
  function HomeCount(b: Board, ids: seq<EntityId>): (n: nat)
    ensures n <= |ids|
  {
    if ids == [] then 0
    else (if ids[0] in b.kaijus && b.kaijus[ids[0]].reachedBed then 1 else 0) + HomeCount(b, ids[1..])
  }

  /**
   * The arrival bonus by the number of kaiju already home: +2000 for the
   * first, triple for the second, quintuple for the third, nothing after
   * (GameBoard.ts:382-396).
   */
  function BedBonus(k: Kaiju, arrived: nat): (r: Kaiju)
    ensures arrived == 0 ==> r.power == k.power + 2000
    ensures arrived == 1 ==> r.power == 3 * k.power
    ensures arrived == 2 ==> r.power == 5 * k.power
    ensures arrived >= 3 ==> r == k
    ensures r == k.(power := r.power)
    ensures Kaijus.Valid(k) ==> Kaijus.Valid(r) && r.power >= k.power
  {
    match arrived
    case 0 => AddPower(k, 2000)
    case 1 => AddPower(k, k.power * 2)
    case 2 => AddPower(k, k.power * 4)
    case _ => k
  }

  /** The kaiju as it settles into its own bed, with `arrived` others already home (GameBoard.ts:385-398). */
  function Homecoming(k: Kaiju, arrived: nat): (r: Kaiju)
    ensures r.reachedBed
    ensures r == k.(power := BedBonus(k, arrived).power, reachedBed := true)
    ensures Kaijus.Valid(k) ==> Kaijus.Valid(r) && r.power >= k.power
  {
    MarkReachedBed(BedBonus(k, arrived))
  }

  /**
   * Kaiju against bed.  Its own bed: the arrival bonus, marked home, the score
   * grows by its new power, and it enters the cell.  Another kaiju's bed
   * blocks it and nothing changes.
   */
  function EnterBed(b: Board, k: Kaiju, target: Position, bid: EntityId): (r: Board)
    requires Indexed(b, k) && IsValidPosition(b, target)
    requires bid in b.beds
    ensures !IsForKaiju(b.beds[bid], k.kaijuType) ==> r == b
    ensures IsForKaiju(b.beds[bid], k.kaijuType) ==>
              var home := Homecoming(k, HomeCount(b, b.kaijuOrder));
              && home.reachedBed && home.power == BedBonus(k, HomeCount(b, b.kaijuOrder)).power
              && r.score == b.score + home.power
              && k.base.id in r.kaijus && r.kaijus[k.base.id] == At(home, target)
              && target in r.grid && r.grid[target] == k.base.id
    ensures IsForKaiju(b.beds[bid], k.kaijuType) ==>
              var home := Homecoming(k, HomeCount(b, b.kaijuOrder));
              r == b.(kaijus := b.kaijus[k.base.id := At(home, target)], score := b.score + home.power,
                      grid := (b.grid - {k.base.position})[target := k.base.id])
  {
    if IsForKaiju(b.beds[bid], k.kaijuType) then
      var home := Homecoming(k, HomeCount(b, b.kaijuOrder));
      MoveEntity(Credit(b, home, home.power), KaijuPiece(home), target).0
    else
      b
  }

  lemma EnterBedKeepsWf(b: Board, k: Kaiju, target: Position, bid: EntityId)
    requires Wf(b) && Indexed(b, k) && IsValidPosition(b, target)
    requires bid in b.beds
    ensures Wf(EnterBed(b, k, target, bid))
  {
    if IsForKaiju(b.beds[bid], k.kaijuType) {
      var home := Homecoming(k, HomeCount(b, b.kaijuOrder));
      var b2 := Credit(b, home, home.power);
      CreditKeepsWf(b, home, home.power);
      MoveKaijuKeepsWf(b2, home, target);
      assert EnterBed(b, k, target, bid) == MoveEntity(b2, KaijuPiece(home), target).0;
    }
  }

  lemma EnterBedProgress(b: Board, k: Kaiju, target: Position, bid: EntityId)
    requires Indexed(b, k) && Kaijus.Valid(k) && IsValidPosition(b, target)
    requires bid in b.beds
    ensures Progress(b, EnterBed(b, k, target, bid))
  {
  }

  /** Dispatch on the kind of the target cell's occupant. */
  function Interact(b: Board, k: Kaiju, target: Position, oid: EntityId): (r: Board)
    requires Wf(b) && Indexed(b, k) && IsValidPosition(b, target)
    requires target in b.grid && b.grid[target] == oid
    ensures r.rows == b.rows && r.cols == b.cols && r.moveLimit == b.moveLimit
    ensures r.currentMove == b.currentMove && r.budget == b.budget && r.initialBudget == b.initialBudget
  {
    assert Holds(b, oid, target);
    assert KaijuIndexOk(b) && KaijusValid(b);
    match oid.kind
    case KaijuCell =>
      FightProgress(b, k, target, oid);
      Fight(b, k, target, oid)
    case BuildingCell =>
      EnterBuildingProgress(b, k, target, oid);
      EnterBuilding(b, k, target, oid)
    case ObstacleCell =>
      EnterObstacleProgress(b, k, target, oid);
      EnterObstacle(b, k, target, oid)
    case BedCell =>
      EnterBedProgress(b, k, target, oid);
      EnterBed(b, k, target, oid)
    case EmptyCell => b
  }

  lemma InteractKeepsWf(b: Board, k: Kaiju, target: Position, oid: EntityId)
    requires Wf(b) && Indexed(b, k) && IsValidPosition(b, target)
    requires target in b.grid && b.grid[target] == oid
    ensures Wf(Interact(b, k, target, oid))
  {
    assert Holds(b, oid, target);
    match oid.kind
    case KaijuCell => FightKeepsWf(b, k, target, oid);
    case BuildingCell => EnterBuildingKeepsWf(b, k, target, oid);
    case ObstacleCell => EnterObstacleKeepsWf(b, k, target, oid);
    case BedCell => EnterBedKeepsWf(b, k, target, oid);
    case EmptyCell =>
  }

  lemma InteractProgress(b: Board, k: Kaiju, target: Position, oid: EntityId)
    requires Wf(b) && Indexed(b, k) && IsValidPosition(b, target)
    requires target in b.grid && b.grid[target] == oid
    ensures Progress(b, Interact(b, k, target, oid))
  {
    assert Holds(b, oid, target);
    assert IndexOk(b) && KaijusValid(b);
    match oid.kind
    case KaijuCell => FightProgress(b, k, target, oid);
    case BuildingCell => EnterBuildingProgress(b, k, target, oid);
    case ObstacleCell => EnterObstacleProgress(b, k, target, oid);
    case BedCell => EnterBedProgress(b, k, target, oid);
    case EmptyCell =>
  }

  // ---------------------------------------------------------------------
  // One kaiju, then the whole turn
  // ---------------------------------------------------------------------

  /**
   * The turn of one kaiju.  A kaiju no longer indexed, dead or home is
   * skipped (re-checked here, so one killed earlier in the same turn does
   * nothing).  Otherwise it asks for its target (spending any
   * immobilisation), stays put when the target is off the board, walks into
   * an empty target, and resolves the occupant of any other.
   */
  function Step(b: Board, id: EntityId): (r: Board)
    requires Wf(b)
    ensures id !in b.kaijus || !Active(b.kaijus[id]) ==> r == b
    ensures id in b.kaijus && Active(b.kaijus[id]) && !IsValidPosition(b, Move(b.kaijus[id]).1) ==>
              r == b.(kaijus := b.kaijus[id := Move(b.kaijus[id]).0])
    ensures id in b.kaijus && Active(b.kaijus[id]) && IsValidPosition(b, Move(b.kaijus[id]).1)
            && Move(b.kaijus[id]).1 !in b.grid ==>
              && id in r.kaijus && r.kaijus[id] == At(Move(b.kaijus[id]).0, Move(b.kaijus[id]).1)
              && r.grid == (b.grid - {b.kaijus[id].base.position})[Move(b.kaijus[id]).1 := id]
              && r == b.(kaijus := b.kaijus[id := At(Move(b.kaijus[id]).0, Move(b.kaijus[id]).1)],
                         grid := (b.grid - {b.kaijus[id].base.position})[Move(b.kaijus[id]).1 := id])
  {
    if id !in b.kaijus || !Active(b.kaijus[id]) then b
    else
      var k := Move(b.kaijus[id]).0;
      var target := Move(b.kaijus[id]).1;
      StoreKaijuKeepsWf(b, k);
      Advance(Store(b, KaijuPiece(k)), k, target)
  }

  /**
   * The mover `k`, already written back with its immobilisation cleared,
   * tries `target`: off the board it stays put, an empty cell it simply
   * enters, and an occupied cell is resolved by the occupant's kind.
   */
  function Advance(b1: Board, k: Kaiju, target: Position): (r: Board)
    requires Wf(b1) && Indexed(b1, k)
    ensures !IsValidPosition(b1, target) ==> r == b1
    ensures IsValidPosition(b1, target) && target !in b1.grid ==>
              && k.base.id in r.kaijus && r.kaijus[k.base.id] == At(k, target)
              && r.grid == (b1.grid - {k.base.position})[target := k.base.id]
              && r == b1.(kaijus := b1.kaijus[k.base.id := At(k, target)],
                          grid := (b1.grid - {k.base.position})[target := k.base.id])
  {
    if !IsValidPosition(b1, target) then b1
    else
      match GetEntityAt(b1, target)
      case None => MoveEntity(b1, KaijuPiece(k), target).0
      case Some(oid) => Interact(b1, k, target, oid)
  }

  lemma AdvanceKeepsWf(b1: Board, k: Kaiju, target: Position)
    requires Wf(b1) && Indexed(b1, k)
    ensures Wf(Advance(b1, k, target))
  {
    if IsValidPosition(b1, target) {
      match GetEntityAt(b1, target)
      case None => MoveKaijuKeepsWf(b1, k, target);
      case Some(oid) => InteractKeepsWf(b1, k, target, oid);
    }
  }

  lemma AdvanceProgress(b1: Board, k: Kaiju, target: Position)
    requires Wf(b1) && Indexed(b1, k)
    ensures Progress(b1, Advance(b1, k, target))
  {
    if IsValidPosition(b1, target) {
      match GetEntityAt(b1, target)
      case None =>
        var r := MoveEntity(b1, KaijuPiece(k), target).0;
        assert r == b1.(kaijus := b1.kaijus[k.base.id := At(k, target)], grid := r.grid);
      case Some(oid) => InteractProgress(b1, k, target, oid);
    }
  }

  lemma StepKeepsWf(b: Board, id: EntityId)
    requires Wf(b)
    ensures Wf(Step(b, id))
  {
    if id in b.kaijus && Active(b.kaijus[id]) {
      var k := Move(b.kaijus[id]).0;
      StepIsAdvance(b, id);
      AdvanceKeepsWf(Store(b, KaijuPiece(k)), k, Move(b.kaijus[id]).1);
    }
  }

  lemma StepProgress(b: Board, id: EntityId)
    requires Wf(b)
    ensures Progress(b, Step(b, id))
  {
    if id in b.kaijus && Active(b.kaijus[id]) {
      var k := Move(b.kaijus[id]).0;
      StepIsAdvance(b, id);
      var b1 := Store(b, KaijuPiece(k));
      AdvanceProgress(b1, k, Move(b.kaijus[id]).1);
      ProgressTransitive(b, b1, Advance(b1, k, Move(b.kaijus[id]).1));
    }
  }

  /**
   * An immobilised kaiju that still holds its own cell targets that cell,
   * meets itself there, ties, and so only loses the immobilisation.
   */
  lemma ImmobilisedKaijuTiesWithItself(b: Board, id: EntityId)
    requires Wf(b) && id in b.kaijus && Active(b.kaijus[id]) && b.kaijus[id].immobilized
    requires b.kaijus[id].base.position in b.grid && b.grid[b.kaijus[id].base.position] == id
    ensures Step(b, id) == b.(kaijus := b.kaijus[id := ResetImmobilized(b.kaijus[id])])
  {
    var k := b.kaijus[id];
    var k1 := Move(k).0;
    var target := Move(k).1;
    assert k.base.id == id && IsValidPosition(b, target);
    StoreKaijuKeepsWf(b, k1);
    var b1 := Store(b, KaijuPiece(k1));
    assert GetEntityAt(b1, target) == Some(id);
    assert Step(b, id) == Advance(b1, k1, target);
    assert Advance(b1, k1, target) == Interact(b1, k1, target, id);
    assert Interact(b1, k1, target, id) == Fight(b1, k1, target, id);
  }

  /**
   * A mover that walks into a stronger kaiju dies where it stands: only its
   * record changes, the grid is untouched, and it stays indexed.
   */
  lemma WeakerMoverDiesInPlace(b: Board, id: EntityId)
    requires Wf(b) && id in b.kaijus && Active(b.kaijus[id])
    requires var t := Move(b.kaijus[id]).1;
             t in b.grid && b.grid[t].kind == KaijuCell && b.grid[t] in b.kaijus
             && b.kaijus[id].power < b.kaijus[b.grid[t]].power
    ensures Step(b, id) == b.(kaijus := b.kaijus[id := Kill(Move(b.kaijus[id]).0)])
  {
    var k1 := Move(b.kaijus[id]).0;
    var target := Move(b.kaijus[id]).1;
    StepIntoKaiju(b, id);
    var b1 := Store(b, KaijuPiece(k1));
    assert b1 == b.(kaijus := b.kaijus[id := k1]);
    assert Fight(b1, k1, target, b.grid[target]) == b1.(kaijus := b1.kaijus[id := Kill(k1)]);
    assert b1.kaijus[id := Kill(k1)] == b.kaijus[id := Kill(k1)];
  }

  /** A step into another kaiju of different power is a fight on the stored board. */
  lemma StepIntoKaiju(b: Board, id: EntityId)
    requires Wf(b) && id in b.kaijus && Active(b.kaijus[id])
    requires var t := Move(b.kaijus[id]).1;
             t in b.grid && b.grid[t].kind == KaijuCell && b.grid[t] in b.kaijus
             && b.kaijus[id].power != b.kaijus[b.grid[t]].power
    ensures var k1 := Move(b.kaijus[id]).0;
            var t := Move(b.kaijus[id]).1;
            var b1 := Store(b, KaijuPiece(k1));
            && b1.grid == b.grid && b1.kaijus == b.kaijus[id := k1]
            && b.grid[t] in b1.kaijus && b1.kaijus[b.grid[t]].base.position == t
            && Step(b, id) == Fight(b1, k1, t, b.grid[t])
  {
    var k1 := Move(b.kaijus[id]).0;
    var target := Move(b.kaijus[id]).1;
    StepIsAdvance(b, id);
    var b1 := Store(b, KaijuPiece(k1));
    MoverMeetsKaiju(b, id);
    AdvanceIntoKaiju(b1, k1, target);
  }

  /**
   * A mover that walks into a weaker kaiju kills and removes it, and takes
   * its cell.
   */
  lemma StrongerMoverTakesTheCell(b: Board, id: EntityId)
    requires Wf(b) && id in b.kaijus && Active(b.kaijus[id])
    requires var t := Move(b.kaijus[id]).1;
             t in b.grid && b.grid[t].kind == KaijuCell && b.grid[t] in b.kaijus
             && b.kaijus[id].power > b.kaijus[b.grid[t]].power
    ensures var t := Move(b.kaijus[id]).1;
            && b.grid[t] !in Step(b, id).kaijus && b.grid[t] !in Step(b, id).kaijuOrder
            && id in Step(b, id).kaijus && Step(b, id).kaijus[id] == At(Move(b.kaijus[id]).0, t)
            && t in Step(b, id).grid && Step(b, id).grid[t] == id
  {
    var k1 := Move(b.kaijus[id]).0;
    var target := Move(b.kaijus[id]).1;
    StepIsAdvance(b, id);
    var b1 := Store(b, KaijuPiece(k1));
    MoverMeetsKaiju(b, id);
    AdvanceIntoKaiju(b1, k1, target);
    StepKeepsWf(b, id);
  }

  /** An active kaiju's step writes it back with the flag cleared and then advances it. */
  lemma StepIsAdvance(b: Board, id: EntityId)
    requires Wf(b) && id in b.kaijus && Active(b.kaijus[id])
    ensures var k1 := Move(b.kaijus[id]).0;
            && k1.base.id == id
            && Store(b, KaijuPiece(k1)) == b.(kaijus := b.kaijus[id := k1])
            && Wf(Store(b, KaijuPiece(k1))) && Indexed(Store(b, KaijuPiece(k1)), k1)
            && Step(b, id) == Advance(Store(b, KaijuPiece(k1)), k1, Move(b.kaijus[id]).1)
  {
    assert KaijuIndexOk(b);
    StoreKaijuKeepsWf(b, Move(b.kaijus[id]).0);
  }

  /** The kaiju in the mover's target cell is another kaiju, indexed as standing there. */
  lemma MoverMeetsKaiju(b: Board, id: EntityId)
    requires Wf(b) && id in b.kaijus
    requires var t := Move(b.kaijus[id]).1;
             t in b.grid && b.grid[t].kind == KaijuCell && b.kaijus[id].power != b.kaijus[b.grid[t]].power
    ensures var t := Move(b.kaijus[id]).1;
            && b.grid[t] != id && IsValidPosition(b, t)
            && b.grid[t] in b.kaijus && b.kaijus[b.grid[t]].base.position == t
  {
    var t := Move(b.kaijus[id]).1;
    assert Holds(b, b.grid[t], t);
  }

  /** Advancing into a cell held by a kaiju is a fight with it. */
  lemma AdvanceIntoKaiju(b1: Board, k: Kaiju, target: Position)
    requires Wf(b1) && Indexed(b1, k) && IsValidPosition(b1, target)
    requires target in b1.grid && b1.grid[target].kind == KaijuCell
    ensures var oid := b1.grid[target];
            && oid in b1.kaijus && b1.kaijus[oid].base.position == target && b1.kaijus[oid].base.id == oid
            && Advance(b1, k, target) == Fight(b1, k, target, oid)
  {
    var oid := b1.grid[target];
    assert Holds(b1, oid, target);
    assert KaijuIndexOk(b1);
    assert GetEntityAt(b1, target) == Some(oid);
  }

  /** Advancing into a cell held by a building is entering that building. */
  lemma AdvanceIntoBuilding(b1: Board, k: Kaiju, target: Position)
    requires Wf(b1) && Indexed(b1, k) && IsValidPosition(b1, target)
    requires target in b1.grid && b1.grid[target].kind == BuildingCell
    ensures var bid := b1.grid[target];
            && bid in b1.buildings && b1.buildings[bid].base.position == target && b1.buildings[bid].base.id == bid
            && Advance(b1, k, target) == EnterBuilding(b1, k, target, bid)
  {
    var bid := b1.grid[target];
    assert Holds(b1, bid, target);
    assert BuildingIndexOk(b1);
  }

  /** Advancing into a cell held by an obstacle is meeting that obstacle. */
  lemma AdvanceIntoObstacle(b1: Board, k: Kaiju, target: Position)
    requires Wf(b1) && Indexed(b1, k) && IsValidPosition(b1, target)
    requires target in b1.grid && b1.grid[target].kind == ObstacleCell
    ensures var oid := b1.grid[target];
            && oid in b1.obstacles && b1.obstacles[oid].base.position == target
            && IsValidPosition(b1, k.base.position)
            && Advance(b1, k, target) == EnterObstacle(b1, k, target, oid)
  {
    var oid := b1.grid[target];
    assert Holds(b1, oid, target);
    assert KaijuIndexOk(b1);
  }

  /** Advancing into a cell held by a bed is arriving at that bed. */
  lemma AdvanceIntoBed(b1: Board, k: Kaiju, target: Position)
    requires Wf(b1) && Indexed(b1, k) && IsValidPosition(b1, target)
    requires target in b1.grid && b1.grid[target].kind == BedCell
    ensures var bid := b1.grid[target];
            && bid in b1.beds && b1.beds[bid].base.position == target
            && Advance(b1, k, target) == EnterBed(b1, k, target, bid)
  {
    var bid := b1.grid[target];
    assert Holds(b1, bid, target);
  }

  /**
   * The arrival count the bed bonus uses is the number of distinct indexed
   * kaiju already home.
   */
  lemma {:induction false} HomeCountCountsHomeKaiju(b: Board, ids: seq<EntityId>)
    requires NoDuplicates(ids)
    ensures HomeCount(b, ids) == |HomeSet(b, ids)|
  {
    if ids != [] {
      var rest := ids[1..];
      assert NoDuplicates(rest) by {
        forall i, j | 0 <= i < j < |rest| ensures rest[i] != rest[j] {
          assert rest[i] == ids[i + 1] && rest[j] == ids[j + 1];
        }
      }
      HomeCountCountsHomeKaiju(b, rest);
      assert ids[0] !in rest by {
        forall j | 0 <= j < |rest| ensures rest[j] != ids[0] {
          assert rest[j] == ids[j + 1];
        }
      }
      HomeSetCons(b, ids);
    }
  }

  /** The kaiju of `ids` that are indexed and home. */
  ghost function HomeSet(b: Board, ids: seq<EntityId>): set<EntityId> {
    set id | id in ids && id in b.kaijus && b.kaijus[id].reachedBed
  }

  lemma HomeSetCons(b: Board, ids: seq<EntityId>)
    requires ids != [] && ids[0] !in ids[1..]
    ensures var head := if ids[0] in b.kaijus && b.kaijus[ids[0]].reachedBed then {ids[0]} else {};
            HomeSet(b, ids) == head + HomeSet(b, ids[1..]) && head !! HomeSet(b, ids[1..])
            && |HomeSet(b, ids)| == |head| + |HomeSet(b, ids[1..])|
  {
    assert forall id :: id in ids <==> id == ids[0] || id in ids[1..];
  }

  /** On a well-formed board the bonus counts every kaiju already home. */
  lemma ArrivalsAreHomeKaiju(b: Board)
    requires OrderOk(b)
    ensures HomeCount(b, b.kaijuOrder) == |set id | id in b.kaijus && b.kaijus[id].reachedBed|
  {
    HomeCountCountsHomeKaiju(b, b.kaijuOrder);
    assert HomeSet(b, b.kaijuOrder) == (set id | id in b.kaijus && b.kaijus[id].reachedBed);
  }

  /** The kaiju's turns, one after another, in the given order. */
  function RunSteps(b: Board, ids: seq<EntityId>): (r: Board)
    requires Wf(b)
    ensures Wf(r) && Progress(b, r)
    decreases |ids|
  {
    if ids == [] then b
    else
      StepKeepsWf(b, ids[0]);
      StepProgress(b, ids[0]);
      var b1 := Step(b, ids[0]);
      var r := RunSteps(b1, ids[1..]);
      ProgressTransitive(b, b1, r);
      r
  }

  /**
   * One game turn.  At the move limit it refuses and changes nothing;
   * otherwise it counts the move and runs the eligible kaiju weakest first,
   * whether or not any kaiju is left to act.  Budget, limits and size never
   * change, the score never drops, and no kaiju ever leaves its bed.
   */
  function ProcessTurn(b: Board): (r: (Board, bool))
    requires Wf(b)
    ensures r.1 <==> b.currentMove < b.moveLimit
    ensures !r.1 ==> r.0 == b
    ensures r.1 ==> r.0.currentMove == b.currentMove + 1
    ensures Wf(r.0)
    ensures r.0.budget == b.budget && r.0.initialBudget == b.initialBudget && r.0.moveLimit == b.moveLimit
    ensures r.0.rows == b.rows && r.0.cols == b.cols && r.0.score >= b.score
    ensures r.0.kaijus.Keys <= b.kaijus.Keys
    ensures forall id | id in r.0.kaijus :: b.kaijus[id].reachedBed ==> r.0.kaijus[id].reachedBed
    ensures Subsequence(r.0.kaijuOrder, b.kaijuOrder)
  {
    if b.currentMove >= b.moveLimit then (b, false)
    else
      var b1 := b.(currentMove := b.currentMove + 1);
      CountersKeepWf(b, b1);
      (RunSteps(b1, TurnOrder(b1)), true)
  }
}
