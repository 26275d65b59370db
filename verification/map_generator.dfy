/**
 * The initial layout (src/services/MapGenerator.ts).  Kaiju, beds and
 * obstacles go to fixed cells computed from the board size; every cell still
 * empty then receives a building.  The building category is the one random
 * choice in the source; here it is an oracle `pick` consulted per cell.
 */
module MapGenerator {
  import opened Types

  datatype BuildingData = BuildingData(position: Position, buildingType: BuildingType)
  datatype ObstacleData = ObstacleData(position: Position, obstacleType: ObstacleType)
  datatype BedData = BedData(position: Position, kaijuType: KaijuType, tier: BedTier)
  datatype KaijuData = KaijuData(position: Position, kaijuType: KaijuType, direction: Direction)

  /** The layout handed to the board's loader, one list per kind of entity. */
  datatype MapData = MapData(
    buildings: seq<BuildingData>,
    obstacles: seq<ObstacleData>,
    beds: seq<BedData>,
    kaijus: seq<KaijuData>)

  /** The generator holds only the board size. */
  datatype Generator = Generator(rows: int, cols: int)

  /** A cell inside the grid; no cell is inside an empty one. */
  predicate IsValidPosition(g: Generator, p: Position): (r: bool)
    ensures r ==> g.rows > 0 && g.cols > 0
  {
    0 <= p.row < g.rows && 0 <= p.col < g.cols
  }

  /** Reference meaning of occupancy: some entry of some list sits at `p`. */
  ghost predicate HasEntityAt(d: MapData, p: Position) {
    || (exists i :: 0 <= i < |d.kaijus| && d.kaijus[i].position == p)
    || (exists i :: 0 <= i < |d.beds| && d.beds[i].position == p)
    || (exists i :: 0 <= i < |d.obstacles| && d.obstacles[i].position == p)
    || (exists i :: 0 <= i < |d.buildings| && d.buildings[i].position == p)
  }

  /** A linear scan of one list for an entry at `p`, as each loop of the source does. */
  function ScanFor<T>(items: seq<T>, at: T -> Position, p: Position): (found: bool)
    ensures found <==> exists i :: 0 <= i < |items| && at(items[i]) == p
  {
    if items == [] then false
    else if at(items[0]) == p then true
    else
      var rest := ScanFor(items[1..], at, p);
      assert forall i | 0 <= i < |items[1..]| :: items[1..][i] == items[i + 1];
      assert rest ==> exists i :: 0 <= i < |items| && at(items[i]) == p;
      rest
  }

  /** Scans kaiju, beds, obstacles and buildings, in that order, for an entry at (row, col). */
  function IsPositionOccupied(d: MapData, row: int, col: int): (r: bool)
    ensures r <==> HasEntityAt(d, Position(row, col))
  {
    var p := Position(row, col);
    || ScanFor(d.kaijus, (k: KaijuData) => k.position, p)
    || ScanFor(d.beds, (b: BedData) => b.position, p)
    || ScanFor(d.obstacles, (o: ObstacleData) => o.position, p)
    || ScanFor(d.buildings, (b: BuildingData) => b.position, p)
  }

  /** The occupied-cell grid: exactly the in-bounds cells some entry of the layout sits on. */
  function MarkOccupiedPositions(g: Generator, d: MapData): (occ: set<Position>)
    ensures forall p :: p in occ <==> IsValidPosition(g, p) && HasEntityAt(d, p)
  {
    var all := (set i | 0 <= i < |d.kaijus| :: d.kaijus[i].position)
      + (set i | 0 <= i < |d.beds| :: d.beds[i].position)
      + (set i | 0 <= i < |d.obstacles| :: d.obstacles[i].position)
      + (set i | 0 <= i < |d.buildings| :: d.buildings[i].position);
    set p | p in all && IsValidPosition(g, p)
  }

  function Min(a: int, b: int): int {
    if a < b then a else b
  }

  /** How many obstacle slots the generator tries: at most three, one per ten cells. */
  function ObstacleCount(g: Generator): (n: int)
    requires g.rows >= 0 && g.cols >= 0
    ensures g.rows * g.cols >= 30 ==> n == 3
    ensures g.rows * g.cols < 30 ==> n == g.rows * g.cols / 10
    ensures 0 <= n <= 3 && (n > 0 ==> g.rows > 0 && g.cols > 0)
  {
    Min(3, g.rows * g.cols / 10)
  }

  /** The i-th obstacle slot: row i (wrapping), middle column. */
  function ObstacleSlot(g: Generator, i: nat): (p: Position)
    requires g.rows > 0
    ensures g.cols > 0 ==> IsValidPosition(g, p)
    ensures i < g.rows ==> p.row == i
  {
    Position(i % g.rows, g.cols / 2)
  }

  /** The i-th obstacle category: mud, spike trap, boulder, repeating. */
  function ObstacleTypeFor(i: nat): (t: ObstacleType)
    ensures t == Mud <==> i % 3 == 0
    ensures t == SpikeTrap <==> i % 3 == 1
    ensures t == Boulder <==> i % 3 == 2
  {
    match i % 3
    case 0 => Mud
    case 1 => SpikeTrap
    case _ => Boulder
  }

  /** Slot `m` is the first of slots `i` .. `m` to name its cell (slots wrap round on short boards). */
  ghost predicate FirstSlotAt(g: Generator, i: nat, m: nat)
    requires g.rows > 0
  {
    forall m': nat | i <= m' < m :: ObstacleSlot(g, m') != ObstacleSlot(g, m)
  }

  ghost predicate IsSlotObstacle(g: Generator, o: ObstacleData, lo: nat, hi: int)
    requires g.rows > 0
  {
    exists m: nat :: lo <= m < hi && o == ObstacleData(ObstacleSlot(g, m), ObstacleTypeFor(m))
  }

  /**
   * Tries slots i .. n-1 in order, adding an obstacle to each slot that is
   * not occupied in the layout built so far (earlier obstacles included).
   */
  function PlaceObstacles(g: Generator, d: MapData, i: nat, n: int): (r: MapData)
    requires g.rows >= 0 && g.cols >= 0
    requires i < n ==> g.rows > 0
    decreases n - i
    ensures r.kaijus == d.kaijus && r.beds == d.beds && r.buildings == d.buildings
    ensures |d.obstacles| <= |r.obstacles| && r.obstacles[..|d.obstacles|] == d.obstacles
    ensures |r.obstacles| - |d.obstacles| <= (if n > i then n - i else 0)
    ensures forall j | |d.obstacles| <= j < |r.obstacles| ::
              g.rows > 0 && IsSlotObstacle(g, r.obstacles[j], i, n) && !HasEntityAt(d, r.obstacles[j].position)
    ensures forall j, k | |d.obstacles| <= j < k < |r.obstacles| :: r.obstacles[j].position != r.obstacles[k].position
    ensures forall m: nat | i <= m < n && g.rows > 0 && FirstSlotAt(g, i, m) && !HasEntityAt(d, ObstacleSlot(g, m)) ::
              ObstacleData(ObstacleSlot(g, m), ObstacleTypeFor(m)) in r.obstacles
  {
    if i >= n then d
    else
      var p := ObstacleSlot(g, i);
      var d' := if IsPositionOccupied(d, p.row, p.col) then d
                else d.(obstacles := d.obstacles + [ObstacleData(p, ObstacleTypeFor(i))]);
      var r := PlaceObstacles(g, d', i + 1, n);
      ExtendingKeepsEntities(d, d');
      PlaceObstaclesSound(g, d, d', r, i, n);
      PlaceObstaclesDistinct(g, d, d', r, i, n);
      PlaceObstaclesComplete(g, d, d', r, i, n);
      r
  }

  lemma PlaceObstaclesSound(g: Generator, d: MapData, d': MapData, r: MapData, i: nat, n: int)
    requires g.rows > 0 && i < n
    requires d' == if HasEntityAt(d, ObstacleSlot(g, i)) then d
                   else d.(obstacles := d.obstacles + [ObstacleData(ObstacleSlot(g, i), ObstacleTypeFor(i))])
    requires forall q | HasEntityAt(d, q) :: HasEntityAt(d', q)
    requires |d'.obstacles| <= |r.obstacles| && r.obstacles[..|d'.obstacles|] == d'.obstacles
    requires forall j | |d'.obstacles| <= j < |r.obstacles| ::
               IsSlotObstacle(g, r.obstacles[j], i + 1, n) && !HasEntityAt(d', r.obstacles[j].position)
    ensures forall j | |d.obstacles| <= j < |r.obstacles| ::
              IsSlotObstacle(g, r.obstacles[j], i, n) && !HasEntityAt(d, r.obstacles[j].position)
  {
    forall j | |d.obstacles| <= j < |r.obstacles|
      ensures IsSlotObstacle(g, r.obstacles[j], i, n) && !HasEntityAt(d, r.obstacles[j].position)
    {
      if j < |d'.obstacles| {
        assert r.obstacles[j] == d'.obstacles[j] == ObstacleData(ObstacleSlot(g, i), ObstacleTypeFor(i));
      } else {
        LaterSlotIsSlot(g, r.obstacles[j], i, n);
      }
    }
  }

  /** The obstacle placed at slot `i`, if any, shares its cell with none placed later. */
  lemma PlaceObstaclesDistinct(g: Generator, d: MapData, d': MapData, r: MapData, i: nat, n: int)
    requires g.rows > 0 && i < n
    requires d' == if HasEntityAt(d, ObstacleSlot(g, i)) then d
                   else d.(obstacles := d.obstacles + [ObstacleData(ObstacleSlot(g, i), ObstacleTypeFor(i))])
    requires |d'.obstacles| <= |r.obstacles| && r.obstacles[..|d'.obstacles|] == d'.obstacles
    requires forall j | |d'.obstacles| <= j < |r.obstacles| :: !HasEntityAt(d', r.obstacles[j].position)
    requires forall j, k | |d'.obstacles| <= j < k < |r.obstacles| :: r.obstacles[j].position != r.obstacles[k].position
    ensures forall j, k | |d.obstacles| <= j < k < |r.obstacles| :: r.obstacles[j].position != r.obstacles[k].position
  {
    forall j, k | |d.obstacles| <= j < k < |r.obstacles|
      ensures r.obstacles[j].position != r.obstacles[k].position
    {
      if j < |d'.obstacles| {
        assert r.obstacles[j] == d'.obstacles[j];
        assert !HasEntityAt(d', r.obstacles[k].position);
      }
    }
  }

  /** Every free slot from `i` on that no earlier slot shares gets its obstacle. */
  lemma PlaceObstaclesComplete(g: Generator, d: MapData, d': MapData, r: MapData, i: nat, n: int)
    requires g.rows > 0 && i < n
    requires d' == if HasEntityAt(d, ObstacleSlot(g, i)) then d
                   else d.(obstacles := d.obstacles + [ObstacleData(ObstacleSlot(g, i), ObstacleTypeFor(i))])
    requires |d'.obstacles| <= |r.obstacles| && r.obstacles[..|d'.obstacles|] == d'.obstacles
    requires forall m: nat | i + 1 <= m < n && FirstSlotAt(g, i + 1, m) && !HasEntityAt(d', ObstacleSlot(g, m)) ::
               ObstacleData(ObstacleSlot(g, m), ObstacleTypeFor(m)) in r.obstacles
    ensures forall m: nat | i <= m < n && FirstSlotAt(g, i, m) && !HasEntityAt(d, ObstacleSlot(g, m)) ::
              ObstacleData(ObstacleSlot(g, m), ObstacleTypeFor(m)) in r.obstacles
  {
    forall m: nat | i <= m < n && FirstSlotAt(g, i, m) && !HasEntityAt(d, ObstacleSlot(g, m))
      ensures ObstacleData(ObstacleSlot(g, m), ObstacleTypeFor(m)) in r.obstacles
    {
      if m == i {
        assert r.obstacles[|d.obstacles|] == d'.obstacles[|d.obstacles|];
      } else {
        assert ObstacleSlot(g, i) != ObstacleSlot(g, m);
        if !HasEntityAt(d, ObstacleSlot(g, i)) {
          AppendedObstacleElsewhere(d, ObstacleData(ObstacleSlot(g, i), ObstacleTypeFor(i)), ObstacleSlot(g, m));
        }
      }
    }
  }

  /** Appending an obstacle at one cell changes the occupancy of no other cell. */
  lemma AppendedObstacleElsewhere(d: MapData, o: ObstacleData, q: Position)
    requires q != o.position
    ensures HasEntityAt(d.(obstacles := d.obstacles + [o]), q) == HasEntityAt(d, q)
  {
    var e := d.(obstacles := d.obstacles + [o]);
    assert forall k | 0 <= k < |d.obstacles| :: e.obstacles[k] == d.obstacles[k];
    if exists k :: 0 <= k < |e.obstacles| && e.obstacles[k].position == q {
      var k :| 0 <= k < |e.obstacles| && e.obstacles[k].position == q;
      assert k < |d.obstacles|;
    }
  }

  /** A layout that only appends obstacles still has an entry wherever the original had one. */
  lemma ExtendingKeepsEntities(d: MapData, d': MapData)
    requires d'.kaijus == d.kaijus && d'.beds == d.beds && d'.buildings == d.buildings
    requires |d.obstacles| <= |d'.obstacles| && d'.obstacles[..|d.obstacles|] == d.obstacles
    ensures forall q | HasEntityAt(d, q) :: HasEntityAt(d', q)
  {
    assert forall k | 0 <= k < |d.obstacles| :: d'.obstacles[k] == d.obstacles[k];
  }

  lemma LaterSlotIsSlot(g: Generator, o: ObstacleData, i: nat, n: int)
    requires g.rows > 0 && IsSlotObstacle(g, o, i + 1, n)
    ensures IsSlotObstacle(g, o, i, n)
  {
    var m: nat :| i + 1 <= m < n && o == ObstacleData(ObstacleSlot(g, m), ObstacleTypeFor(m));
  }

  function GenerateObstacles(g: Generator, d: MapData): (r: MapData)
    requires g.rows >= 0 && g.cols >= 0
    ensures r.kaijus == d.kaijus && r.beds == d.beds && r.buildings == d.buildings
    ensures |d.obstacles| <= |r.obstacles| <= |d.obstacles| + ObstacleCount(g)
    ensures r.obstacles[..|d.obstacles|] == d.obstacles
    ensures forall j | |d.obstacles| <= j < |r.obstacles| ::
              g.rows > 0 && IsSlotObstacle(g, r.obstacles[j], 0, ObstacleCount(g))
              && !HasEntityAt(d, r.obstacles[j].position)
    ensures forall j, k | |d.obstacles| <= j < k < |r.obstacles| :: r.obstacles[j].position != r.obstacles[k].position
    ensures forall m: nat | m < ObstacleCount(g) && g.rows > 0 && FirstSlotAt(g, 0, m) && !HasEntityAt(d, ObstacleSlot(g, m)) ::
              ObstacleData(ObstacleSlot(g, m), ObstacleTypeFor(m)) in r.obstacles
  {
    PlaceObstacles(g, d, 0, ObstacleCount(g))
  }

  ghost predicate BuildingAt(bs: seq<BuildingData>, p: Position) {
    exists j :: 0 <= j < |bs| && bs[j].position == p
  }

  /** Buildings for the free cells of one row, from column `col` rightwards. */
  function FillRow(g: Generator, occ: set<Position>, pick: Position -> BuildingType, row: int, col: int)
    : (r: seq<BuildingData>)
    requires 0 <= col <= g.cols
    decreases g.cols - col
    ensures |r| <= g.cols - col
  {
    if col == g.cols then []
    else
      var p := Position(row, col);
      (if p in occ then [] else [BuildingData(p, pick(p))]) + FillRow(g, occ, pick, row, col + 1)
  }

  /** Every building of FillRow sits in that row, right of `col`, on a free cell, with the oracle's category. */
  lemma {:induction false} FillRowSound(g: Generator, occ: set<Position>, pick: Position -> BuildingType, row: int, col: int, j: int)
    requires 0 <= col <= g.cols && 0 <= j < |FillRow(g, occ, pick, row, col)|
    ensures var b := FillRow(g, occ, pick, row, col)[j];
            b.position.row == row && col <= b.position.col < g.cols
            && b.position !in occ && b.buildingType == pick(b.position)
    decreases g.cols - col
  {
    var p := Position(row, col);
    var here := if p in occ then [] else [BuildingData(p, pick(p))];
    var rest := FillRow(g, occ, pick, row, col + 1);
    assert FillRow(g, occ, pick, row, col) == here + rest;
    if j >= |here| {
      FillRowSound(g, occ, pick, row, col + 1, j - |here|);
    }
  }

  /** FillRow lists its buildings left to right, so no cell gets two. */
  lemma {:induction false} FillRowIncreasing(g: Generator, occ: set<Position>, pick: Position -> BuildingType, row: int, col: int, j: int, k: int)
    requires 0 <= col <= g.cols && 0 <= j < k < |FillRow(g, occ, pick, row, col)|
    ensures FillRow(g, occ, pick, row, col)[j].position.col < FillRow(g, occ, pick, row, col)[k].position.col
    decreases g.cols - col
  {
    var p := Position(row, col);
    var here := if p in occ then [] else [BuildingData(p, pick(p))];
    var rest := FillRow(g, occ, pick, row, col + 1);
    assert FillRow(g, occ, pick, row, col) == here + rest;
    if j >= |here| {
      FillRowIncreasing(g, occ, pick, row, col + 1, j - |here|, k - |here|);
    } else {
      FillRowSound(g, occ, pick, row, col + 1, k - |here|);
    }
  }

  /** Every free cell of the row from `col` on receives a building. */
  lemma {:induction false} FillRowComplete(g: Generator, occ: set<Position>, pick: Position -> BuildingType, row: int, col: int, c: int)
    requires 0 <= col <= c < g.cols && Position(row, c) !in occ
    ensures BuildingAt(FillRow(g, occ, pick, row, col), Position(row, c))
    decreases g.cols - col
  {
    var p := Position(row, col);
    var here := if p in occ then [] else [BuildingData(p, pick(p))];
    var rest := FillRow(g, occ, pick, row, col + 1);
    var r := here + rest;
    assert FillRow(g, occ, pick, row, col) == r;
    if c == col {
      assert r[0].position == Position(row, c);
    } else {
      FillRowComplete(g, occ, pick, row, col + 1, c);
      var j :| 0 <= j < |rest| && rest[j].position == Position(row, c);
      assert r[|here| + j] == rest[j];
    }
  }

  /** Buildings for the free cells of rows `row` .. rows-1, in row-major order. */
  function FillRows(g: Generator, occ: set<Position>, pick: Position -> BuildingType, row: int)
    : (r: seq<BuildingData>)
    requires 0 <= row <= g.rows && g.cols >= 0
    decreases g.rows - row
  {
    if row == g.rows then []
    else FillRow(g, occ, pick, row, 0) + FillRows(g, occ, pick, row + 1)
  }

  lemma {:induction false} FillRowsSound(g: Generator, occ: set<Position>, pick: Position -> BuildingType, row: int, j: int)
    requires 0 <= row <= g.rows && g.cols >= 0 && 0 <= j < |FillRows(g, occ, pick, row)|
    ensures var b := FillRows(g, occ, pick, row)[j];
            row <= b.position.row && IsValidPosition(g, b.position)
            && b.position !in occ && b.buildingType == pick(b.position)
    decreases g.rows - row
  {
    var here := FillRow(g, occ, pick, row, 0);
    var rest := FillRows(g, occ, pick, row + 1);
    assert FillRows(g, occ, pick, row) == here + rest;
    if j < |here| {
      FillRowSound(g, occ, pick, row, 0, j);
    } else {
      FillRowsSound(g, occ, pick, row + 1, j - |here|);
    }
  }

  lemma {:induction false} FillRowsDistinct(g: Generator, occ: set<Position>, pick: Position -> BuildingType, row: int, j: int, k: int)
    requires 0 <= row <= g.rows && g.cols >= 0 && 0 <= j < k < |FillRows(g, occ, pick, row)|
    ensures FillRows(g, occ, pick, row)[j].position != FillRows(g, occ, pick, row)[k].position
    decreases g.rows - row
  {
    var here := FillRow(g, occ, pick, row, 0);
    var rest := FillRows(g, occ, pick, row + 1);
    assert FillRows(g, occ, pick, row) == here + rest;
    if k < |here| {
      FillRowIncreasing(g, occ, pick, row, 0, j, k);
    } else if j < |here| {
      FillRowSound(g, occ, pick, row, 0, j);
      FillRowsSound(g, occ, pick, row + 1, k - |here|);
    } else {
      FillRowsDistinct(g, occ, pick, row + 1, j - |here|, k - |here|);
    }
  }

  lemma {:induction false} FillRowsComplete(g: Generator, occ: set<Position>, pick: Position -> BuildingType, row: int, p: Position)
    requires 0 <= row <= g.rows && g.cols >= 0
    requires IsValidPosition(g, p) && row <= p.row && p !in occ
    ensures BuildingAt(FillRows(g, occ, pick, row), p)
    decreases g.rows - row
  {
    var here := FillRow(g, occ, pick, row, 0);
    var rest := FillRows(g, occ, pick, row + 1);
    var r := here + rest;
    assert FillRows(g, occ, pick, row) == r;
    if p.row == row {
      FillRowComplete(g, occ, pick, row, 0, p.col);
      var j :| 0 <= j < |here| && here[j].position == Position(row, p.col);
      assert r[j] == here[j];
    } else {
      FillRowsComplete(g, occ, pick, row + 1, p);
      var j :| 0 <= j < |rest| && rest[j].position == p;
      assert r[|here| + j] == rest[j];
    }
  }

  /**
   * Puts a building on every in-bounds cell no entry of the layout occupies,
   * one per cell, leaving the rest of the layout as it was.
   */
  function FillRemainingSpacesWithBuildings(g: Generator, d: MapData, pick: Position -> BuildingType)
    : (r: MapData)
    requires g.rows >= 0 && g.cols >= 0
    ensures r.kaijus == d.kaijus && r.beds == d.beds && r.obstacles == d.obstacles
    ensures |d.buildings| <= |r.buildings| && r.buildings[..|d.buildings|] == d.buildings
    ensures forall j | |d.buildings| <= j < |r.buildings| ::
              && IsValidPosition(g, r.buildings[j].position) && !HasEntityAt(d, r.buildings[j].position)
              && r.buildings[j].buildingType == pick(r.buildings[j].position)
    ensures forall j, k | |d.buildings| <= j < k < |r.buildings| :: r.buildings[j].position != r.buildings[k].position
    ensures forall p | IsValidPosition(g, p) :: HasEntityAt(r, p)
  {
    var occ := MarkOccupiedPositions(g, d);
    var added := FillRows(g, occ, pick, 0);
    var r := d.(buildings := d.buildings + added);
    FillRemainingFacts(g, d, pick, occ, added, r);
    r
  }

  lemma FillRemainingFacts(g: Generator, d: MapData, pick: Position -> BuildingType, occ: set<Position>,
                           added: seq<BuildingData>, r: MapData)
    requires g.rows >= 0 && g.cols >= 0
    requires occ == MarkOccupiedPositions(g, d) && added == FillRows(g, occ, pick, 0)
    requires r == d.(buildings := d.buildings + added)
    ensures forall j | |d.buildings| <= j < |r.buildings| ::
              && IsValidPosition(g, r.buildings[j].position) && !HasEntityAt(d, r.buildings[j].position)
              && r.buildings[j].buildingType == pick(r.buildings[j].position)
    ensures forall j, k | |d.buildings| <= j < k < |r.buildings| :: r.buildings[j].position != r.buildings[k].position
    ensures forall p | IsValidPosition(g, p) :: HasEntityAt(r, p)
  {
    var n := |d.buildings|;
    forall j | n <= j < |r.buildings|
      ensures && IsValidPosition(g, r.buildings[j].position) && !HasEntityAt(d, r.buildings[j].position)
              && r.buildings[j].buildingType == pick(r.buildings[j].position)
    {
      assert r.buildings[j] == added[j - n];
      FillRowsSound(g, occ, pick, 0, j - n);
    }
    forall j, k | n <= j < k < |r.buildings|
      ensures r.buildings[j].position != r.buildings[k].position
    {
      assert r.buildings[j] == added[j - n] && r.buildings[k] == added[k - n];
      FillRowsDistinct(g, occ, pick, 0, j - n, k - n);
    }
    forall p | IsValidPosition(g, p)
      ensures HasEntityAt(r, p)
    {
      if p in occ {
        assert HasEntityAt(d, p);
        if exists i :: 0 <= i < |d.buildings| && d.buildings[i].position == p {
          var i :| 0 <= i < |d.buildings| && d.buildings[i].position == p;
          assert r.buildings[i] == d.buildings[i];
        }
      } else {
        FillRowsComplete(g, occ, pick, 0, p);
        var j :| 0 <= j < |added| && added[j].position == p;
        assert r.buildings[n + j] == added[j];
      }
    }
  }

  /** The three kaiju in the left-most column, all facing east. */
  function StartKaijus(g: Generator): (ks: seq<KaijuData>)
    ensures |ks| == 3
    ensures forall j | 0 <= j < 3 :: ks[j].position.col == 0 && ks[j].direction == East
    ensures forall j, k | 0 <= j < k < 3 :: ks[j].kaijuType != ks[k].kaijuType
    ensures g.rows > 0 && g.cols > 0 ==> forall j | 0 <= j < 3 :: IsValidPosition(g, ks[j].position)
    ensures g.rows >= 3 ==> forall j, k | 0 <= j < k < 3 :: ks[j].position != ks[k].position
  {
    [ KaijuData(Position(0, 0), Blue, East),
      KaijuData(Position(g.rows / 2, 0), Green, East),
      KaijuData(Position(g.rows - 1, 0), Red, East) ]
  }

  /** Their beds on the same rows in the right-most column, tiers top to bottom. */
  function StartBeds(g: Generator): (bs: seq<BedData>)
    ensures |bs| == 3
    ensures forall j | 0 <= j < 3 ::
              && bs[j].position.col == g.cols - 1
              && bs[j].position.row == StartKaijus(g)[j].position.row
              && bs[j].kaijuType == StartKaijus(g)[j].kaijuType
    ensures g.rows > 0 && g.cols > 0 ==> forall j | 0 <= j < 3 :: IsValidPosition(g, bs[j].position)
    ensures g.rows >= 3 ==> forall j, k | 0 <= j < k < 3 :: bs[j].position != bs[k].position
  {
    [ BedData(Position(0, g.cols - 1), Blue, Top),
      BedData(Position(g.rows / 2, g.cols - 1), Green, Middle),
      BedData(Position(g.rows - 1, g.cols - 1), Red, Bottom) ]
  }

  /** The layout before obstacles and buildings: the kaiju and their beds. */
  function StartLayout(g: Generator): MapData {
    MapData([], [], StartBeds(g), StartKaijus(g))
  }

  /**
   * The whole layout: fixed kaiju and beds, an obstacle on every slot of the
   * middle column that holds no kaiju or bed and no earlier slot's obstacle,
   * and a building on every other cell.
   */
  function GenerateMap(g: Generator, pick: Position -> BuildingType): (d: MapData)
    requires g.rows >= 0 && g.cols >= 0
    ensures |d.kaijus| == 3 && |d.beds| == 3
    ensures d.kaijus[0] == KaijuData(Position(0, 0), Blue, East)
    ensures d.kaijus[1] == KaijuData(Position(g.rows / 2, 0), Green, East)
    ensures d.kaijus[2] == KaijuData(Position(g.rows - 1, 0), Red, East)
    ensures d.beds[0] == BedData(Position(0, g.cols - 1), Blue, Top)
    ensures d.beds[1] == BedData(Position(g.rows / 2, g.cols - 1), Green, Middle)
    ensures d.beds[2] == BedData(Position(g.rows - 1, g.cols - 1), Red, Bottom)
    ensures |d.obstacles| <= ObstacleCount(g) <= 3
    ensures forall j | 0 <= j < |d.obstacles| :: g.rows > 0 && IsSlotObstacle(g, d.obstacles[j], 0, ObstacleCount(g))
    ensures forall p | IsValidPosition(g, p) :: HasEntityAt(d, p)
    ensures forall j, k | 0 <= j < k < |d.buildings| :: d.buildings[j].position != d.buildings[k].position
    ensures forall j | 0 <= j < |d.buildings| ::
              IsValidPosition(g, d.buildings[j].position) && d.buildings[j].buildingType == pick(d.buildings[j].position)
    ensures forall m: nat | m < ObstacleCount(g) && g.rows > 0 && FirstSlotAt(g, 0, m) && !HasEntityAt(StartLayout(g), ObstacleSlot(g, m)) ::
              ObstacleData(ObstacleSlot(g, m), ObstacleTypeFor(m)) in d.obstacles
    ensures forall j, k | 0 <= j < k < |d.obstacles| :: d.obstacles[j].position != d.obstacles[k].position
    ensures forall j, k | 0 <= j < |d.obstacles| && 0 <= k < |d.kaijus| :: d.obstacles[j].position != d.kaijus[k].position
    ensures forall j, k | 0 <= j < |d.obstacles| && 0 <= k < |d.beds| :: d.obstacles[j].position != d.beds[k].position
    ensures forall j, k | 0 <= j < |d.buildings| && 0 <= k < |d.kaijus| :: d.buildings[j].position != d.kaijus[k].position
    ensures forall j, k | 0 <= j < |d.buildings| && 0 <= k < |d.beds| :: d.buildings[j].position != d.beds[k].position
    ensures forall j, k | 0 <= j < |d.buildings| && 0 <= k < |d.obstacles| :: d.buildings[j].position != d.obstacles[k].position
  {
    var d0 := StartLayout(g);
    var d1 := GenerateObstacles(g, d0);
    var d2 := FillRemainingSpacesWithBuildings(g, d1, pick);
    GeneratedCellsApart(d0, d1, d2);
    d2
  }

  /** Obstacles avoid the kaiju and bed cells, and buildings avoid every other entry's cell. */
  lemma GeneratedCellsApart(d0: MapData, d1: MapData, d2: MapData)
    requires d0.obstacles == [] && d0.buildings == []
    requires d1.kaijus == d0.kaijus && d1.beds == d0.beds && d1.buildings == []
    requires forall j | 0 <= j < |d1.obstacles| :: !HasEntityAt(d0, d1.obstacles[j].position)
    requires d2.kaijus == d1.kaijus && d2.beds == d1.beds && d2.obstacles == d1.obstacles
    requires forall j | 0 <= j < |d2.buildings| :: !HasEntityAt(d1, d2.buildings[j].position)
    ensures forall j, k | 0 <= j < |d2.obstacles| && 0 <= k < |d2.kaijus| :: d2.obstacles[j].position != d2.kaijus[k].position
    ensures forall j, k | 0 <= j < |d2.obstacles| && 0 <= k < |d2.beds| :: d2.obstacles[j].position != d2.beds[k].position
    ensures forall j, k | 0 <= j < |d2.buildings| && 0 <= k < |d2.kaijus| :: d2.buildings[j].position != d2.kaijus[k].position
    ensures forall j, k | 0 <= j < |d2.buildings| && 0 <= k < |d2.beds| :: d2.buildings[j].position != d2.beds[k].position
    ensures forall j, k | 0 <= j < |d2.buildings| && 0 <= k < |d2.obstacles| :: d2.buildings[j].position != d2.obstacles[k].position
  {
  }

  /** On the default 5x5 board exactly two obstacles appear: mud at (0,2) and a spike trap at (1,2). */
  lemma DefaultMapObstacles(pick: Position -> BuildingType)
    ensures GenerateMap(Generator(5, 5), pick).obstacles
            == [ObstacleData(Position(0, 2), Mud), ObstacleData(Position(1, 2), SpikeTrap)]
  {
    var g := Generator(5, 5);
    var d0 := MapData([], [], StartBeds(g), StartKaijus(g));
    assert forall i | 0 <= i < |d0.kaijus| :: d0.kaijus[i].position.col == 0;
    assert forall i | 0 <= i < |d0.beds| :: d0.beds[i].position.col == 4;
    TwoSlotsPlaced(d0);
    assert GenerateMap(g, pick).obstacles == GenerateObstacles(g, d0).obstacles;
  }

  /**
   * On a 5x5 board with no obstacle, no building and nothing in the middle
   * column, both obstacle slots are taken: mud at (0,2), a spike trap at (1,2).
   */
  lemma TwoSlotsPlaced(d: MapData)
    requires d.obstacles == [] && d.buildings == []
    requires forall i | 0 <= i < |d.kaijus| :: d.kaijus[i].position.col != 2
    requires forall i | 0 <= i < |d.beds| :: d.beds[i].position.col != 2
    ensures GenerateObstacles(Generator(5, 5), d).obstacles
            == [ObstacleData(Position(0, 2), Mud), ObstacleData(Position(1, 2), SpikeTrap)]
  {
    var g := Generator(5, 5);
    var d1 := d.(obstacles := [ObstacleData(Position(0, 2), Mud)]);
    assert ObstacleCount(g) == 2;
    FirstSlotTaken(d);
    SecondSlotTaken(d, d1);
  }

  lemma FirstSlotTaken(d: MapData)
    requires d.obstacles == [] && d.buildings == []
    requires forall i | 0 <= i < |d.kaijus| :: d.kaijus[i].position.col != 2
    requires forall i | 0 <= i < |d.beds| :: d.beds[i].position.col != 2
    ensures PlaceObstacles(Generator(5, 5), d, 0, 2)
            == PlaceObstacles(Generator(5, 5), d.(obstacles := [ObstacleData(Position(0, 2), Mud)]), 1, 2)
  {
    var g := Generator(5, 5);
    assert ObstacleSlot(g, 0) == Position(0, 2) && ObstacleTypeFor(0) == Mud;
    assert !HasEntityAt(d, Position(0, 2));
  }

  lemma SecondSlotTaken(d: MapData, d1: MapData)
    requires d.buildings == [] && d1 == d.(obstacles := [ObstacleData(Position(0, 2), Mud)])
    requires forall i | 0 <= i < |d.kaijus| :: d.kaijus[i].position.col != 2
    requires forall i | 0 <= i < |d.beds| :: d.beds[i].position.col != 2
    ensures PlaceObstacles(Generator(5, 5), d1, 1, 2).obstacles
            == [ObstacleData(Position(0, 2), Mud), ObstacleData(Position(1, 2), SpikeTrap)]
  {
    var g := Generator(5, 5);
    var d2 := d.(obstacles := [ObstacleData(Position(0, 2), Mud), ObstacleData(Position(1, 2), SpikeTrap)]);
    assert ObstacleSlot(g, 1) == Position(1, 2) && ObstacleTypeFor(1) == SpikeTrap;
    assert !HasEntityAt(d1, Position(1, 2));
    assert PlaceObstacles(g, d1, 1, 2) == PlaceObstacles(g, d2, 2, 2);
  }

}
