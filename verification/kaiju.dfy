/**
 * The mobile agent (src/models/Kaiju.ts).  Every mutator of the class is a
 * function from the old record to the new one.  `Valid` is the invariant the
 * class keeps without ever checking it: power is never negative, and a kaiju
 * with no power is dead.
 */
module Kaijus {
  import opened Wrappers
  import opened Types
  import opened Entities

  datatype Kaiju = Kaiju(
    base: Entity,
    kaijuType: KaijuType,
    power: int,
    direction: Direction,
    immobilized: bool,
    alive: bool,
    reachedBed: bool)

  predicate Valid(k: Kaiju) {
    k.power >= 0 && (k.power == 0 ==> !k.alive)
  }

  /** The constructor; a missing direction argument means EAST. */
  function NewKaiju(position: Position, t: KaijuType, direction: Option<Direction>, serial: nat): (k: Kaiju)
    ensures k.base.position == position && k.base.cellType == KaijuCell
    ensures k.base.id == EntityId(KaijuCell, serial)
    ensures k.kaijuType == t && k.power == KaijuInitialPower(t)
    ensures direction.None? ==> k.direction == East
    ensures direction.Some? ==> k.direction == direction.value
    ensures k.alive && !k.immobilized && !k.reachedBed
    ensures Valid(k)
  {
    Kaiju(NewEntity(position, KaijuCell, serial), t, KaijuInitialPower(t), direction.GetOr(East), false, true, false)
  }

  function SetDirection(k: Kaiju, d: Direction): (r: Kaiju)
    ensures r.direction == d && r == k.(direction := d)
  {
    k.(direction := d)
  }

  /** Adds `amount` unchecked; liveness is not touched, so it never revives a dead kaiju. */
  function AddPower(k: Kaiju, amount: int): (r: Kaiju)
    ensures r.power - k.power == amount
    ensures r.alive == k.alive && r == k.(power := r.power)
    ensures Valid(k) && amount >= 0 ==> Valid(r)
  {
    k.(power := k.power + amount)
  }

  /** Lowers power, saturating at zero; the kaiju dies exactly when nothing is left. */
  function ReducePower(k: Kaiju, amount: int): (r: Kaiju)
    ensures r.power >= 0
    ensures r.power <= k.power - amount || r.power == 0
    ensures k.power - amount >= 0 ==> r.power == k.power - amount
    ensures r.alive <==> k.alive && r.power != 0
    ensures r == k.(power := r.power, alive := r.alive)
    ensures Valid(r)
  {
    var p := if k.power - amount > 0 then k.power - amount else 0;
    k.(power := p, alive := k.alive && p != 0)
  }

  /** The power-plant effect; a dead kaiju at zero power stays at zero. */
  function DoublePower(k: Kaiju): (r: Kaiju)
    ensures r.power == 2 * k.power
    ensures r == k.(power := r.power)
    ensures Valid(k) ==> Valid(r)
  {
    k.(power := k.power * 2)
  }

  /**
   * The spike-trap effect: power drops to the floor of its half (Dafny's `/`
   * by a positive divisor rounds down, like the source's Math.floor), and the
   * kaiju dies exactly when that leaves nothing.
   */
  function HalfPower(k: Kaiju): (r: Kaiju)
    ensures 2 * r.power <= k.power < 2 * r.power + 2
    ensures r.alive <==> k.alive && r.power != 0
    ensures r == k.(power := r.power, alive := r.alive)
    ensures Valid(k) ==> Valid(r)
  {
    var p := k.power / 2;
    k.(power := p, alive := if p == 0 then false else k.alive)
  }

  function Immobilize(k: Kaiju): (r: Kaiju)
    ensures r.immobilized && r == k.(immobilized := true)
  {
    k.(immobilized := true)
  }

  function ResetImmobilized(k: Kaiju): (r: Kaiju)
    ensures !r.immobilized && r == k.(immobilized := false)
  {
    k.(immobilized := false)
  }

  /** The boulder effect: North and South swap, East and West swap. */
  function Opposite(d: Direction): (r: Direction)
    ensures r != d
    ensures (d == North <==> r == South) && (d == East <==> r == West)
  {
    match d
    case North => South
    case South => North
    case East => West
    case West => East
  }

  function ReverseDirection(k: Kaiju): (r: Kaiju)
    ensures r.direction == Opposite(k.direction) && r == k.(direction := r.direction)
  {
    k.(direction := Opposite(k.direction))
  }

  /** Reversing twice faces the kaiju the way it started. */
  lemma ReverseDirectionInvolution(k: Kaiju)
    ensures ReverseDirection(ReverseDirection(k)) == k
  {
  }

  function Kill(k: Kaiju): (r: Kaiju)
    ensures !r.alive && r.power == 0 && Valid(r)
    ensures r == k.(power := 0, alive := false)
  {
    k.(alive := false, power := 0)
  }

  /** Arrival at the bed; no function of this module ever clears the flag again. */
  function MarkReachedBed(k: Kaiju): (r: Kaiju)
    ensures r.reachedBed && r == k.(reachedBed := true)
  {
    k.(reachedBed := true)
  }

  /** The neighbouring cell one step in direction `d`. */
  function Neighbour(p: Position, d: Direction): (q: Position)
    ensures q != p
    ensures d == North ==> q == Position(p.row - 1, p.col)
    ensures d == South ==> q == Position(p.row + 1, p.col)
    ensures d == East ==> q == Position(p.row, p.col + 1)
    ensures d == West ==> q == Position(p.row, p.col - 1)
  {
    match d
    case North => Position(p.row - 1, p.col)
    case South => Position(p.row + 1, p.col)
    case East => Position(p.row, p.col + 1)
    case West => Position(p.row, p.col - 1)
  }

  /** Stepping forward and then back again returns to the starting cell. */
  lemma NeighbourThenOpposite(p: Position, d: Direction)
    ensures Neighbour(Neighbour(p, d), Opposite(d)) == p
  {
  }

  /**
   * The intended target of one step, and the kaiju after asking: an
   * immobilised kaiju targets its own cell and spends its immobilisation,
   * any other targets the neighbour it faces.  The position itself is not
   * changed here; the board moves the kaiju.
   */
  function Move(k: Kaiju): (r: (Kaiju, Position))
    ensures r.0 == ResetImmobilized(k)
    ensures r.0.base == k.base
    ensures k.immobilized ==> r.1 == k.base.position
    ensures !k.immobilized ==> r.1 == Neighbour(k.base.position, k.direction)
    ensures r.1 == k.base.position <==> k.immobilized
  {
    if k.immobilized then
      (ResetImmobilized(k), k.base.position)
    else
      (k, Neighbour(k.base.position, k.direction))
  }

  /**
   * A fight between this kaiju and `opponent`: the strictly stronger one
   * wins and the loser is killed; on equal power nobody changes and the
   * answer is false.  The result is (this, opponent, this won).
   */
  function Combat(k: Kaiju, opponent: Kaiju): (r: (Kaiju, Kaiju, bool))
    ensures r.2 <==> k.power > opponent.power
    ensures k.power > opponent.power ==> r.0 == k && r.1 == Kill(opponent)
    ensures k.power < opponent.power ==> r.0 == Kill(k) && r.1 == opponent
    ensures k.power == opponent.power ==> r.0 == k && r.1 == opponent
  {
    if k.power > opponent.power then
      (k, Kill(opponent), true)
    else if k.power < opponent.power then
      (Kill(k), opponent, false)
    else
      (k, opponent, false)
  }

  /** A kaiju fighting itself (what an immobilised kaiju does) always ties. */
  lemma CombatWithSelfIsTie(k: Kaiju)
    ensures Combat(k, k) == (k, k, false)
  {
  }

  /** Every mutator keeps `Valid` when the amounts it adds are not negative. */
  lemma MutatorsKeepValid(k: Kaiju, amount: int, d: Direction)
    requires Valid(k) && amount >= 0
    ensures Valid(AddPower(k, amount)) && Valid(ReducePower(k, amount))
    ensures Valid(DoublePower(k)) && Valid(HalfPower(k)) && Valid(Kill(k))
    ensures Valid(Immobilize(k)) && Valid(ResetImmobilized(k)) && Valid(ReverseDirection(k))
    ensures Valid(MarkReachedBed(k)) && Valid(SetDirection(k, d)) && Valid(Move(k).0)
  {
  }
}
