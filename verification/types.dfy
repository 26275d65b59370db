/**
 * The enumerations, records and constant tables shared by the whole game
 * (src/models/types.ts).  Each TypeScript string enum becomes a datatype with
 * one constructor per member, so "exactly four directions" and "three kinds
 * of kaiju" are stated by the declarations themselves.
 */
module Types {
  import opened Wrappers

  datatype Direction = North | South | East | West

  datatype CommandType = DirectionCommand | StompCommand | PowerUpCommand

  /** A command template; `direction` is present only on direction commands built by the catalog. */
  datatype Command = Command(kind: CommandType, cost: int, direction: Option<Direction>)

  datatype KaijuType = Blue | Green | Red

  datatype ObstacleType = Mud | SpikeTrap | Boulder

  datatype BuildingType = HighValue | LowValue | PowerPlant

  /** What a grid cell shows; `EmptyCell` is never the type of an entity. */
  datatype CellType = EmptyCell | KaijuCell | BuildingCell | ObstacleCell | BedCell

  /** The 'top' | 'middle' | 'bottom' tier of a bed. */
  datatype BedTier = Top | Middle | Bottom

  /** A grid coordinate; nothing bounds it until a board checks it. */
  datatype Position = Position(row: int, col: int)

  datatype GameConfig = GameConfig(rows: int, cols: int, moveLimit: int, initialBudget: int)

  /** COMMAND_PRICES. */
  function CommandPrice(t: CommandType): (price: nat)
    ensures price in {10, 20, 30}
    ensures t == DirectionCommand <==> price == 10
    ensures t == StompCommand <==> price == 20
    ensures t == PowerUpCommand <==> price == 30
  {
    match t
    case DirectionCommand => 10
    case StompCommand => 20
    case PowerUpCommand => 30
  }

  /** KAIJU_INITIAL_POWER. */
  function KaijuInitialPower(t: KaijuType): (power: nat)
    ensures power > 0
    ensures t == Blue <==> power == 3000
    ensures t == Green <==> power == 2000
    ensures t == Red <==> power == 1000
  {
    match t
    case Blue => 3000
    case Green => 2000
    case Red => 1000
  }
}
