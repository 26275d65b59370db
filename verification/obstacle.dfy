/** A stationary hazard (src/models/Obstacle.ts): its category is fixed at construction. */
module Obstacles {
  import opened Types
  import opened Entities

  datatype Obstacle = Obstacle(base: Entity, obstacleType: ObstacleType)

  function NewObstacle(position: Position, obstacleType: ObstacleType, serial: nat): (o: Obstacle)
    ensures o.base.position == position && o.base.cellType == ObstacleCell
    ensures o.base.id == EntityId(ObstacleCell, serial)
    ensures GetObstacleType(o) == obstacleType
  {
    Obstacle(NewEntity(position, ObstacleCell, serial), obstacleType)
  }

  function GetObstacleType(o: Obstacle): ObstacleType {
    o.obstacleType
  }
}
