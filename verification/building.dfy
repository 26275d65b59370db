/**
 * A two-floor structure (src/models/Building.ts).  Floor 0 is the lower
 * floor and floor 1 the upper; the floor exposed to an arriving kaiju is the
 * topmost intact one, `floors - 1`.  The intact-floor count is a
 * `FloorCount`, so it stays within [0, 2] by construction.
 */
module Buildings {
  import opened Wrappers
  import opened Types
  import opened Entities

  type FloorCount = n: int | 0 <= n <= 2

  datatype Building = Building(
    base: Entity,
    buildingType: BuildingType,
    floor0: Option<Command>,
    floor1: Option<Command>,
    floors: FloorCount)

  /** A fresh building: both floors intact, no command on either. */
  function NewBuilding(position: Position, t: BuildingType, serial: nat): (b: Building)
    ensures b.base.position == position && b.base.cellType == BuildingCell
    ensures b.base.id == EntityId(BuildingCell, serial)
    ensures b.buildingType == t
    ensures GetIntactFloors(b) == 2 && !IsDestroyed(b)
    ensures b.floor0.None? && b.floor1.None?
  {
    Building(NewEntity(position, BuildingCell, serial), t, None, None, 2)
  }

  /** The command on floor 0 or 1; the source throws for any other floor. */
  function GetCommand(b: Building, floor: int): Option<Command>
    requires 0 <= floor <= 1
  {
    if floor == 0 then b.floor0 else b.floor1
  }

  /**
   * Stores `c` on a free floor 0 or 1, whatever the number of intact
   * floors; fails with the building unchanged for any other floor or a floor
   * that already carries a command.
   */
  function SetCommand(b: Building, floor: int, c: Command): (r: (Building, bool))
    ensures r.1 <==> 0 <= floor <= 1 && GetCommand(b, floor).None?
    ensures !r.1 ==> r.0 == b
    ensures r.1 ==> GetCommand(r.0, floor) == Some(c)
    ensures r.1 ==> GetCommand(r.0, 1 - floor) == GetCommand(b, 1 - floor)
    ensures r.0.base == b.base && r.0.buildingType == b.buildingType && r.0.floors == b.floors
  {
    if floor < 0 || floor > 1 || GetCommand(b, floor).Some? then
      (b, false)
    else if floor == 0 then
      (b.(floor0 := Some(c)), true)
    else
      (b.(floor1 := Some(c)), true)
  }

  /** Points for each floor broken: a power plant pays nothing (it doubles the kaiju instead). */
  function ValuePerFloor(t: BuildingType): (v: nat)
    ensures t == HighValue <==> v == 500
    ensures t == LowValue <==> v == 250
    ensures t == PowerPlant <==> v == 0
  {
    match t
    case HighValue => 500
    case LowValue => 250
    case PowerPlant => 0
  }

  function GetValuePerFloor(b: Building): nat {
    ValuePerFloor(b.buildingType)
  }

  /** Removes the command of one floor, leaving the other. */
  function ClearFloor(b: Building, floor: int): (r: Building)
    requires 0 <= floor <= 1
    ensures GetCommand(r, floor).None? && GetCommand(r, 1 - floor) == GetCommand(b, 1 - floor)
    ensures r.base == b.base && r.buildingType == b.buildingType && r.floors == b.floors
  {
    if floor == 0 then b.(floor0 := None) else b.(floor1 := None)
  }

  /**
   * Breaks the topmost intact floor: one floor fewer, that floor's command
   * gone, the other floor untouched, and the per-floor value paid.  With no
   * floor left nothing changes and nothing is paid.
   */
  function BreakFloor(b: Building): (r: (Building, int))
    ensures b.floors == 0 ==> r == (b, 0)
    ensures b.floors > 0 ==> r.0.floors == b.floors - 1 && r.1 == GetValuePerFloor(b)
    ensures b.floors > 0 ==> GetCommand(r.0, b.floors - 1).None?
    ensures b.floors > 0 ==> GetCommand(r.0, 2 - b.floors) == GetCommand(b, 2 - b.floors)
    ensures r.0.base == b.base && r.0.buildingType == b.buildingType
    ensures r.1 >= 0
  {
    if b.floors <= 0 then
      (b, 0)
    else
      var left := b.floors - 1;
      (ClearFloor(b.(floors := left), left), GetValuePerFloor(b))
  }

  /**
   * Breaks up to two floors at once: from any intact count it ends with no
   * floor and no command, paying the value of each floor actually broken.
   */
  function Stomp(b: Building): (r: (Building, int))
    ensures r.0.floors == 0 && IsDestroyed(r.0)
    ensures r.1 == b.floors * GetValuePerFloor(b)
    ensures b.floors > 0 ==> r.0.floor0.None? && (b.floors == 2 ==> r.0.floor1.None?)
    ensures b.floors == 1 ==> r.0.floor1 == b.floor1
    ensures b.floors == 0 ==> r.0 == b
    ensures r.0.base == b.base && r.0.buildingType == b.buildingType
  {
    var (b1, v1) := BreakFloor(b);
    var (b2, v2) := if b1.floors > 0 then BreakFloor(b1) else (b1, 0);
    (b2, v1 + v2)
  }

  predicate IsDestroyed(b: Building) {
    b.floors == 0
  }

  function GetIntactFloors(b: Building): FloorCount {
    b.floors
  }

  /** The command on the exposed floor, if any floor is left. */
  function ExposedCommand(bl: Building): Option<Command> {
    if bl.floors > 0 then GetCommand(bl, bl.floors - 1) else None
  }

  predicate HasStomp(bl: Building) {
    ExposedCommand(bl).Some? && ExposedCommand(bl).value.kind == StompCommand
  }

  /** A stomp on a fresh building is worth exactly two ordinary breaks in a row. */
  lemma StompEqualsTwoBreaks(b: Building)
    requires b.floors == 2
    ensures Stomp(b).1 == BreakFloor(b).1 + BreakFloor(BreakFloor(b).0).1
    ensures Stomp(b).0 == BreakFloor(BreakFloor(b).0).0
  {
  }

  /** Breaking floors never raises the count, and destruction is reached exactly at zero. */
  lemma BreakingOnlyLowersFloors(b: Building)
    ensures BreakFloor(b).0.floors <= b.floors && Stomp(b).0.floors <= b.floors
    ensures IsDestroyed(BreakFloor(b).0) <==> b.floors <= 1
  {
  }
}
