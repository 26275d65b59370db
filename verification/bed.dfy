/** The goal cell of one kaiju type (src/models/Bed.ts); a bed never changes after construction. */
module Beds {
  import opened Types
  import opened Entities

  datatype Bed = Bed(base: Entity, kaijuType: KaijuType, tier: BedTier)

  function NewBed(position: Position, kaijuType: KaijuType, tier: BedTier, serial: nat): (b: Bed)
    ensures b.base.position == position && b.base.cellType == BedCell && b.base.id == EntityId(BedCell, serial)
    ensures GetKaijuType(b) == kaijuType && GetBedPosition(b) == tier
  {
    Bed(NewEntity(position, BedCell, serial), kaijuType, tier)
  }

  function GetKaijuType(b: Bed): KaijuType {
    b.kaijuType
  }

  /** The tier is stored for a tie-break the turn engine never performs. */
  function GetBedPosition(b: Bed): BedTier {
    b.tier
  }

  /** A bed admits exactly the kaiju type it was built for. */
  function IsForKaiju(b: Bed, t: KaijuType): (r: bool)
    ensures r <==> t == GetKaijuType(b)
  {
    b.kaijuType == t
  }
}
