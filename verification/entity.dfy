/**
 * The base every board occupant shares (src/models/Entity.ts): a position,
 * the cell type fixed at construction, and an identity.  The source builds
 * the identity from the type name and a random suffix; here the suffix is an
 * abstract serial number handed out by the board, so two entities created by
 * one board never share an identity.
 */
module Entities {
  import opened Types

  /** The identity `<type>-<suffix>`: the kind prefix and an opaque serial. */
  datatype EntityId = EntityId(kind: CellType, serial: nat)

  datatype Entity = Entity(position: Position, cellType: CellType, id: EntityId)

  /** The constructor: the identity carries the entity's own cell type as its prefix. */
  function NewEntity(position: Position, cellType: CellType, serial: nat): (e: Entity)
    ensures e.position == position && e.cellType == cellType
    ensures e.id.kind == cellType && e.id.serial == serial
  {
    Entity(position, cellType, EntityId(cellType, serial))
  }

  /** A copy of the stored position; the model has no aliasing, so the copy is the value. */
  function GetPosition(e: Entity): Position {
    e.position
  }

  /** Moving an entity changes its position and nothing else: type and identity have no setter. */
  function SetPosition(e: Entity, position: Position): (e': Entity)
    ensures GetPosition(e') == position
    ensures GetType(e') == GetType(e) && GetId(e') == GetId(e)
  {
    e.(position := position)
  }

  function GetType(e: Entity): CellType {
    e.cellType
  }

  function GetId(e: Entity): EntityId {
    e.id
  }
}
