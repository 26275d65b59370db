# Kaiju-Cat turn engine in Dafny

A model of the game core of Kaiju-Cat, a turn-based puzzle game on a grid.
Three kaiju (Blue, Green, Red) walk one cell per turn, each in its facing
direction, towards their beds. Along the way they meet:

- buildings, which pay points floor by floor;
- obstacles: mud, spike traps and boulders;
- each other, and the stronger kaiju wins.

Before and between turns the player buys commands with a budget and places
them on building floors. A stomp command on the exposed floor makes a kaiju
flatten the whole building at once.

The model covers:

- the entities: `Entity`, `Kaiju`, `Building`, `Bed` and `Obstacle`;
- the board (`GameBoard`): grid, per-kind indexes, counters, loading a layout,
  and the turn (`processTurn`);
- the command manager;
- the procedural map generator;
- the game service facade.

Everything is an immutable value:

- **Grid.** A `map<Position, EntityId>`; a missing key is an empty cell.
- **Indexes.** One map per entity kind.
- **Mutation.** Changing a shared object is modelled by writing the updated
  record back into its index.
- **Turn.** A fold of `Turn.Step` over the eligible kaiju, sorted stably by
  power.
- **Kaiju load order.** The board records the insertion order of the kaiju
  index (`kaijuOrder`). Kaiju of equal power act in that order.

`GameBoard.Wf` is the invariant every operation keeps:

- Every grid cell holds an indexed entity that stands on that cell.
- Every record sits under its own identity and inside the board.
- `kaijuOrder` lists each indexed kaiju exactly once.
- A kaiju with power 0 is dead.

The model follows the code, including the places where it differs from what
the comments or the help text suggest:

- The grid–index link holds in one direction only. A kaiju that walks onto a
  building that survives, into mud, over a spike trap it survives, or into its
  own bed overwrites that cell, while the building, obstacle or bed stays
  indexed at the same position.
- A kaiju that attacks a stronger one dies where it stands and stays on the
  board and in the index.
- An immobilised kaiju targets its own cell, meets itself, ties, and nothing
  happens beyond the flag clearing (`Turn.ImmobilisedKaijuTiesWithItself`).
- A combat tie changes nothing. The bed-tier tie-break is not implemented.
- `processTurn` refuses only at the move limit. It still counts a turn when
  every kaiju is dead or home.
- A kaiju that is already home can still be attacked and killed by a stronger
  kaiju walking into its cell.
- `GameService.getInitialBudget` reports the default 110 whatever the board
  was built with.

## Model

| member | source | states |
|---|---|---|
| Types.CommandPrice | src/models/types.ts:64-68 | Direction commands cost 10, Stomp 20, PowerUp 30, and each price belongs to exactly one type |
| Types.KaijuInitialPower | src/models/types.ts:71-75 | Blue starts at 3000, Green at 2000, Red at 1000, each power belongs to one type and all are positive |
| Entities.NewEntity | src/models/Entity.ts:8-12 | a new entity has the given position and cell type, and its identity carries that cell type |
| Entities.SetPosition | src/models/Entity.ts:15-22 | reading the position after setting it yields the value set; type and identity are unchanged |
| Beds.NewBed | src/models/Bed.ts:8-22 | a bed has cell type BED and reports back the owner type and tier it was built with |
| Beds.IsForKaiju | src/models/Bed.ts:25-27 | a bed accepts a kaiju type exactly when it is its owner type |
| Obstacles.NewObstacle | src/models/Obstacle.ts:7-15 | an obstacle has cell type OBSTACLE and reports back the category it was built with |
| Kaijus.NewKaiju | src/models/Kaiju.ts:12-20 | a new kaiju has its type's initial power, faces east unless told otherwise, and is alive, mobile and away from its bed |
| Kaijus.AddPower | src/models/Kaiju.ts:43-45 | power grows by exactly the amount, nothing else changes, and the power invariant survives a non-negative amount |
| Kaijus.ReducePower | src/models/Kaiju.ts:48-53 | power becomes max(0, p - a) and the kaiju dies exactly when it reaches 0 |
| Kaijus.DoublePower | src/models/Kaiju.ts:56-58 | power doubles, nothing else changes, and the invariant is kept |
| Kaijus.HalfPower | src/models/Kaiju.ts:61-66 | power becomes the floor of half, and the kaiju dies exactly when that is 0 |
| Kaijus.Immobilize | src/models/Kaiju.ts:69-71 | only the immobilised flag changes, to set |
| Kaijus.ResetImmobilized | src/models/Kaiju.ts:79-81 | only the immobilised flag changes, to clear |
| Kaijus.Opposite | src/models/Kaiju.ts:84-99 | the opposite direction differs from the original and swaps north with south and east with west |
| Kaijus.ReverseDirection | src/models/Kaiju.ts:84-99 | only the facing changes, to the opposite direction |
| Kaijus.ReverseDirectionInvolution | src/models/Kaiju.ts:84-99 | turning round twice gives back the same kaiju |
| Kaijus.Kill | src/models/Kaiju.ts:107-110 | a killed kaiju is dead with power 0 and still satisfies the invariant |
| Kaijus.MarkReachedBed | src/models/Kaiju.ts:113-120 | only the home flag changes, to set; no operation clears it |
| Kaijus.Neighbour | src/models/Kaiju.ts:131-144 | north is one row up (row − 1), south one row down (row + 1), east one column right (col + 1), west one column left (col − 1), so the step never stays put |
| Kaijus.NeighbourThenOpposite | src/models/Kaiju.ts:131-144 | a step followed by a step in the opposite direction returns to the start |
| Kaijus.Move | src/models/Kaiju.ts:123-147 | the position is not changed and the flag is cleared; the target is the own cell exactly when the kaiju was immobilised, otherwise the neighbour it faces |
| Kaijus.Combat | src/models/Kaiju.ts:150-161 | a strictly stronger attacker wins and kills the opponent, a strictly weaker one kills itself, and equal power changes neither |
| Kaijus.CombatWithSelfIsTie | src/models/Kaiju.ts:150-161 | a kaiju fighting itself ties and nothing changes |
| Kaijus.MutatorsKeepValid | src/models/Kaiju.ts:43-120 | every mutator keeps "power never negative, and a kaiju at power 0 is dead" |
| Buildings.NewBuilding | src/models/Building.ts:9-14 | a new building has two intact floors and no command on either |
| Buildings.SetCommand | src/models/Building.ts:30-36 | it succeeds exactly for a free floor 0 or 1, whatever the intact floors, then writes that floor only; a failure changes nothing |
| Buildings.ValuePerFloor | src/models/Building.ts:39-50 | high-value floors are worth 500, low-value 250 and power-plant 0, one value per type |
| Buildings.ClearFloor | src/models/Building.ts:63-64 | the floor's command is gone and the other floor's command is untouched |
| Buildings.BreakFloor | src/models/Building.ts:53-69 | with n > 0 floors: n-1 floors are left, the command at index n-1 is cleared, the other floor is kept, and one floor's value is paid; with none, nothing changes and 0 is paid |
| Buildings.Stomp | src/models/Building.ts:72-82 | no floor is left and every remaining floor is paid |
| Buildings.StompEqualsTwoBreaks | src/models/Building.ts:72-82 | on a full building a stomp is exactly two breaks in a row, in result and payout |
| Buildings.BreakingOnlyLowersFloors | src/models/Building.ts:53-92 | breaking never adds floors, and a break destroys a building exactly when at most one floor was left |
| StableSort.SortBy | src/models/GameBoard.ts:274-276 | the sort is a permutation of its input |
| StableSort.SortKeepsLength | src/models/GameBoard.ts:274-276 | the sort keeps length and membership |
| StableSort.SortIsAscending | src/models/GameBoard.ts:274-276 | the result is ordered by ascending key (lowest power first) |
| StableSort.SortIsStable | src/models/GameBoard.ts:274-276 | elements with equal keys keep their original relative order |
| StableSort.WithKeyIsSubsequence | src/models/GameBoard.ts:274-276 | the elements with one key appear in the same relative order as in the list they are picked from |
| Sequences.SubsequenceTransitive | src/models/GameBoard.ts:230 | dropping elements twice is dropping elements once: a subsequence of a subsequence is a subsequence |
| Sequences.SubsequenceMembers | src/models/GameBoard.ts:230 | a subsequence is no longer than its source and holds only its elements |
| Sequences.SubsequenceKeepsOrder | src/models/GameBoard.ts:230 | two elements of a subsequence occur in the same order in its source |
| MapGenerator.ScanFor | src/services/MapGenerator.ts:196-221 | a linear scan finds an entry at a cell exactly when one exists |
| MapGenerator.IsPositionOccupied | src/services/MapGenerator.ts:194-224 | a cell is occupied exactly when some kaiju, bed, obstacle or building entry is at it |
| MapGenerator.MarkOccupiedPositions | src/services/MapGenerator.ts:124-156 | the marked cells are exactly the in-bounds cells holding some entry |
| MapGenerator.ObstacleCount | src/services/MapGenerator.ts:176 | three obstacles from 30 cells up, otherwise a tenth of the cells rounded down; none on an empty grid |
| MapGenerator.IsValidPosition | src/services/MapGenerator.ts:159-161 | a cell inside the generator's grid; an empty grid has no such cell |
| MapGenerator.ObstacleSlot | src/services/MapGenerator.ts:173-181 | every slot lies on the grid whenever it has columns, and the i-th slot is on row i while i is below the row count |
| MapGenerator.ObstacleTypeFor | src/services/MapGenerator.ts:166-187 | the category is mud, spike trap or boulder exactly when the index is 0, 1 or 2 modulo 3 |
| MapGenerator.PlaceObstacles | src/services/MapGenerator.ts:178-190 | the loop keeps earlier entries; every added obstacle sits on a slot that was free, no two share a cell, and every free slot met for the first time gets its obstacle with the type for its index |
| MapGenerator.PlaceObstaclesSound | src/services/MapGenerator.ts:178-190 | each obstacle the remaining loop adds sits on a slot that was free before it |
| MapGenerator.PlaceObstaclesDistinct | src/services/MapGenerator.ts:178-190 | the obstacles the loop adds never share a cell |
| MapGenerator.PlaceObstaclesComplete | src/services/MapGenerator.ts:178-190 | every free slot met for the first time gets its obstacle |
| MapGenerator.AppendedObstacleElsewhere | src/services/MapGenerator.ts:181-187 | adding an obstacle changes occupancy only at its own cell |
| MapGenerator.ExtendingKeepsEntities | src/services/MapGenerator.ts:181-187 | adding entries never frees an occupied cell |
| MapGenerator.GenerateObstacles | src/services/MapGenerator.ts:164-191 | the i-th candidate goes to (i mod rows, cols/2) with type mud, spike trap or boulder by i mod 3; it is placed exactly when that cell is free and no earlier candidate took it, and no two obstacles share a cell |
| MapGenerator.FillRow | src/services/MapGenerator.ts:102-119 | one row adds at most one building per remaining column |
| MapGenerator.FillRowSound | src/services/MapGenerator.ts:102-119 | each building added in a row is on a free in-bounds cell of that row, with the category drawn for that cell |
| MapGenerator.FillRowIncreasing | src/services/MapGenerator.ts:102-119 | buildings in a row are added left to right |
| MapGenerator.FillRowComplete | src/services/MapGenerator.ts:102-119 | every free cell of the row gets a building |
| MapGenerator.FillRowsSound | src/services/MapGenerator.ts:101-120 | each added building is on a free in-bounds cell, with the category drawn for that cell |
| MapGenerator.FillRowsDistinct | src/services/MapGenerator.ts:101-120 | no two added buildings share a cell |
| MapGenerator.FillRowsComplete | src/services/MapGenerator.ts:101-120 | every free in-bounds cell gets a building |
| MapGenerator.FillRemainingSpacesWithBuildings | src/services/MapGenerator.ts:91-121 | afterwards every in-bounds cell holds an entry; new buildings only go on previously free cells, one per cell; other lists are untouched |
| MapGenerator.FillRemainingFacts | src/services/MapGenerator.ts:91-121 | the filled layout's buildings are sound, distinct and cover every free cell |
| MapGenerator.GenerateMap | src/services/MapGenerator.ts:34-88 | kaiju at (0,0), (rows/2,0), (rows-1,0) facing east; beds on the same rows of the last column with tiers top, middle, bottom; each free slot gets its obstacle; every building is in bounds with the category drawn for its cell; obstacles and buildings never share a cell with each other or with a kaiju or bed; every cell is filled |
| MapGenerator.StartKaijus | src/services/MapGenerator.ts:44-60 | three kaiju of three different types in the first column, all facing east, on the grid when it is non-empty, on three different cells from three rows up |
| MapGenerator.StartBeds | src/services/MapGenerator.ts:62-79 | three beds in the last column, each on the row of the kaiju of its own type, on the grid when it is non-empty, on three different cells from three rows up |
| MapGenerator.TwoSlotsPlaced | src/services/MapGenerator.ts:164-187 | on a 5 by 5 map with nothing yet in the middle column, the two obstacle slots give mud at (0,2) and a spike trap at (1,2), in that order |
| MapGenerator.FirstSlotTaken | src/services/MapGenerator.ts:178-187 | on a 5 by 5 map with the middle column free, the first slot places mud at (0,2) |
| MapGenerator.SecondSlotTaken | src/services/MapGenerator.ts:178-187 | with mud at (0,2), the second slot places a spike trap at (1,2) |
| MapGenerator.DefaultMapObstacles | src/services/MapGenerator.ts:173-188 | on a 5 by 5 map exactly two obstacles appear: mud at (0,2) and a spike trap at (1,2) |
| GameBoard.NewBoard | src/models/GameBoard.ts:33-53 | an empty well-formed board with the configured size, limit and budget, move and score at 0 |
| GameBoard.IsValidPosition | src/models/GameBoard.ts:258-261 | a cell inside the board's grid; a board with no rows or no columns has no such cell |
| GameBoard.Reset | src/models/GameBoard.ts:56-69 | from any state: an empty well-formed board, move and score 0, full budget, size and limit kept |
| GameBoard.PlaceEntity | src/models/GameBoard.ts:164-191 | it succeeds exactly for an on-board position; then the cell points at the entity and its own index holds it, a new kaiju is appended to the order and a known one keeps its place, and the other indexes and the counters are unchanged; a refusal changes nothing |
| GameBoard.MoveEntity | src/models/GameBoard.ts:194-213 | an off-board target is refused; otherwise the old cell is cleared, the target cell holds the entity, and its record now stands there |
| GameBoard.Without | src/models/GameBoard.ts:230 | deleting a kaiju from the order keeps every other identity, in the same relative order, and drops that one; no duplicate is introduced |
| GameBoard.RemoveEntity | src/models/GameBoard.ts:216-244 | an off-board entity is refused; otherwise its cell is cleared and it leaves its own index and, for a kaiju, the order |
| GameBoard.GetEntityAt | src/models/GameBoard.ts:247-256 | a cell shows an entity exactly when it is on the board and non-empty |
| GameBoard.PlaceFreshKeepsWf | src/models/GameBoard.ts:164-191 | placing a freshly created entity keeps the board well formed |
| GameBoard.PlaceKeepsGridOk | src/models/GameBoard.ts:164-191 | placing a fresh entity keeps every cell pointing at an indexed entity standing there |
| GameBoard.PlaceKeepsOrderOk | src/models/GameBoard.ts:164-191 | placing a fresh kaiju on the board appends it at the end of the order, anything else leaves the order as it was, and the order still lists each indexed kaiju once |
| GameBoard.PlaceKeepsIndexOk | src/models/GameBoard.ts:164-191 | placing a fresh entity keeps every index filed by identity and inside the board |
| GameBoard.StoreKaijuKeepsWf | src/models/GameBoard.ts:358-372 | changing a kaiju's state in place keeps the board well formed |
| GameBoard.StoreBuildingKeepsWf | src/models/GameBoard.ts:326-330 | changing a building's floors or commands in place keeps the board well formed |
| GameBoard.MoveKaijuKeepsWf | src/models/GameBoard.ts:194-213 | moving a kaiju keeps the board well formed, even though it may overwrite another entity's cell |
| GameBoard.RemoveKeepsWf | src/models/GameBoard.ts:216-244 | removing an indexed entity keeps the board well formed |
| GameBoard.CountersKeepWf | src/models/GameBoard.ts:271 | changing the move counter, budget or score alone keeps the board well formed |
| GameBoard.Settle | src/models/GameBoard.ts:345-347 | a building with no floor left is removed with its cell cleared; otherwise its record is written back; kaiju are untouched |
| GameBoard.SettleKeepsWf | src/models/GameBoard.ts:345-347 | settling a damaged building keeps the board well formed |
| GameBoard.Spawns | src/models/GameBoard.ts:72-105 | loading visits the buildings, then the obstacles, then the beds, then the kaiju, each list in its own order, one entry per element |
| GameBoard.Create | src/models/GameBoard.ts:76-104 | each entry builds the entity of its kind at its position, and a kaiju entry builds a new kaiju with its type and direction |
| GameBoard.CreateIsFresh | src/models/GameBoard.ts:76-104 | each created entity has a new identity of its own kind and satisfies the kaiju invariant |
| GameBoard.LoadAll | src/models/GameBoard.ts:72-105 | loading changes no counter, budget or score |
| GameBoard.LoadAllKeepsWf | src/models/GameBoard.ts:72-105 | loading any layout keeps the board well formed |
| GameBoard.LoadAllFillsCells | src/models/GameBoard.ts:72-105 | after loading, the filled cells are the old ones plus the on-board cells of the entries |
| GameBoard.LoadAllAddsNewKaijus | src/models/GameBoard.ts:99-105 | loading only appends to the kaiju order, and every kaiju it adds is new |
| GameBoard.LoadAllKeepsRecords | src/models/GameBoard.ts:72-105 | loading never changes or removes an indexed record, and issues one new serial per entry |
| GameBoard.LoadOneKeepsRecords | src/models/GameBoard.ts:76-104 | one entry keeps every earlier record and installs the created entity when its position is on the board |
| GameBoard.LoadAllInstalls | src/models/GameBoard.ts:72-105 | every entry at an on-board position leaves its created entity in its own index, under the serial for its place in the layout |
| GameBoard.LoadAllGridFrame | src/models/GameBoard.ts:72-105 | a filled cell no entry names keeps its occupant |
| GameBoard.LoadAllLastEntryWins | src/models/GameBoard.ts:72-105 | a cell named by several entries shows the last of them |
| GameBoard.LoadAllAppendsKaijuInOrder | src/models/GameBoard.ts:100-105 | loading keeps the old kaiju order as a prefix and appends the on-board kaiju entries in layout order |
| GameBoard.LoadedKaijuOrderCons | src/models/GameBoard.ts:100-105 | the appended order is built entry by entry: a kaiju entry on the board contributes its identity first |
| GameBoard.LoadMapAppendsKaijuInOrder | src/models/GameBoard.ts:100-105 | the kaiju that loading appends are exactly the on-board kaiju entries, in layout order |
| GameBoard.LoadMapInstalls | src/models/GameBoard.ts:72-105 | each layout entry at an on-board position is installed under the serial of its place in the layout |
| GameBoard.LoadMapListsKaiju | src/models/GameBoard.ts:100-105 | the k-th kaiju entry is appended to the order exactly when its position is on the board |
| GameBoard.LoadAllListsKaiju | src/models/GameBoard.ts:100-105 | a kaiju entry is appended to the order exactly when its position is on the board |
| GameBoard.LoadMapIndexesKaiju | src/models/GameBoard.ts:100-105 | an on-board kaiju entry is indexed as a new kaiju with its type, position and direction |
| GameBoard.LoadAllIndexesKaiju | src/models/GameBoard.ts:100-105 | an on-board kaiju entry is indexed as a new kaiju with its type, position and direction |
| GameBoard.LoadMapLastEntryWins | src/models/GameBoard.ts:72-105 | a cell named by several layout entries shows the entity of the last one |
| GameBoard.LoadMap | src/models/GameBoard.ts:72-106 | loading keeps well-formedness and counters, fills exactly the old cells plus the entries' on-board cells, keeps the old kaiju order as a prefix, and any kaiju it adds is new |
| GameBoard.IsGameOver | src/models/GameBoard.ts:416-421 | over exactly when the move limit is reached or every indexed kaiju is dead or home, including when there are none |
| GameBoard.AllDone | src/models/GameBoard.ts:418-420 | the scan holds exactly when every listed kaiju is dead or home |
| GameBoard.SpendBudget | src/models/GameBoard.ts:444-451 | it succeeds exactly when the amount is covered; it then debits exactly that amount, and otherwise nothing changes |
| GameBoard.GetKaijus | src/models/GameBoard.ts:454-456 | the i-th kaiju returned is the record of the i-th identity in index insertion order, one per indexed kaiju |
| Turn.Eligible | src/models/GameBoard.ts:274-275 | exactly the listed kaiju that are alive and not home are kept, in their listed order |
| Turn.TurnOrder | src/models/GameBoard.ts:274-276 | only living kaiju away from their beds are scheduled, and weakest first |
| Turn.TurnOrderIsSortedEligible | src/models/GameBoard.ts:274-276 | the turn order holds exactly the living kaiju away from their beds, weakest first, and the kaiju of one power appear in the same order as in the index's insertion order |
| Turn.TiesFollowEarlierOrder | src/models/GameBoard.ts:274-276 | kaiju of equal power act in the order they were loaded, even after earlier deletions from the index |
| Turn.Fight | src/models/GameBoard.ts:294-302 | stronger mover: the board becomes exactly the old one with the opponent gone from the index, the turn order and its cell, the mover's old cell cleared and the target given to the mover; weaker mover: it dies in place and nothing else changes; equal power: no change; the score is untouched |
| Turn.Overpower | src/models/GameBoard.ts:297-301 | the winner's move: the board becomes exactly the old one with the loser gone from index, turn order and cell, and the winner moved from its old cell onto the loser's |
| Turn.FightKeepsWf | src/models/GameBoard.ts:294-302 | a fight keeps the board well formed |
| Turn.FightProgress | src/models/GameBoard.ts:294-302 | a fight adds no entity, keeps the score and keeps every home kaiju home |
| Turn.Smash | src/models/GameBoard.ts:311-334 | a stomp on the exposed floor flattens the building and pays all floors; otherwise one floor breaks and pays; no floor left pays nothing |
| Turn.Energise | src/models/GameBoard.ts:338-341 | a power plant doubles the mover's power; any other building leaves the mover as it was |
| Turn.CreditKeepsWf | src/models/GameBoard.ts:336 | crediting the score keeps the board well formed |
| Turn.EnterBuilding | src/models/GameBoard.ts:304-351 | the board becomes exactly the old one with the score raised by the damage value, the mover (doubled by a power plant) moved into the cell, and the building either replaced by its one-floor-shorter self or, once no floors remain, removed from index and grid; nothing else changes |
| Turn.EnterBuildingKeepsWf | src/models/GameBoard.ts:304-351 | entering a building keeps the board well formed |
| Turn.EnterBuildingProgress | src/models/GameBoard.ts:304-351 | entering a building never lowers the score or adds entities |
| Turn.EnterObstacle | src/models/GameBoard.ts:353-375 | mud: the only change is the immobilised kaiju moving in; spike trap: the only change is the halved kaiju moving in, or, when drained, leaving index, cell and turn order; boulder: the only change is the kaiju's reversed facing; the obstacle is unchanged |
| Turn.EnterMud | src/models/GameBoard.ts:357-360 | the board becomes exactly the old one with the immobilised kaiju moved onto the mud cell and its old cell cleared; score and obstacles are unchanged |
| Turn.EnterSpikeTrap | src/models/GameBoard.ts:362-369 | a spike trap halves the kaiju's power; a survivor moves onto the cell and nothing else changes, while a drained kaiju leaves the index, its old cell and the turn order and nothing else changes |
| Turn.EnterBoulder | src/models/GameBoard.ts:371-373 | a boulder turns the kaiju round and nothing else on the board changes |
| Turn.EnterObstacleKeepsWf | src/models/GameBoard.ts:353-375 | meeting an obstacle keeps the board well formed |
| Turn.EnterObstacleProgress | src/models/GameBoard.ts:353-375 | meeting an obstacle keeps score, obstacles and beds |
| Turn.HomeCount | src/models/GameBoard.ts:382-383 | the count of home kaiju never exceeds the number listed |
| Turn.BedBonus | src/models/GameBoard.ts:385-395 | the first arrival gains 2000, the second triples, the third quintuples, later ones gain nothing; only power changes |
| Turn.Homecoming | src/models/GameBoard.ts:385-398 | an arriving kaiju is marked home and only its power changes, by the bonus for the number already home; a valid kaiju never loses power |
| Turn.EnterBed | src/models/GameBoard.ts:377-404 | at its own bed the board becomes exactly the old one with the kaiju given the arrival bonus, marked home and moved in and its power added to the score; a foreign bed changes nothing |
| Turn.Credit | src/models/GameBoard.ts:399 | the kaiju's record is written back and the score rises by exactly the amount, with nothing else changed; the building case at line 336 credits the same way |
| Turn.EnterBedKeepsWf | src/models/GameBoard.ts:377-404 | entering a bed keeps the board well formed |
| Turn.EnterBedProgress | src/models/GameBoard.ts:377-404 | entering a bed never lowers the score |
| Turn.InteractKeepsWf | src/models/GameBoard.ts:292-405 | resolving any occupant keeps the board well formed |
| Turn.InteractProgress | src/models/GameBoard.ts:292-405 | resolving any occupant never lowers the score, adds entities or sends a kaiju away from its bed |
| Turn.Interact | src/models/GameBoard.ts:292-405 | resolving an occupant of any kind never changes the board size, the move limit, the move counter or the budget |
| Turn.StepIsAdvance | src/models/GameBoard.ts:278-290 | an active kaiju's step writes it back with its immobilisation cleared and then advances it to the target it asked for |
| Turn.StepIntoKaiju | src/models/GameBoard.ts:278-302 | a step into a kaiju of different power is exactly the fight of the moved kaiju against that occupant, on the board where only the mover's record has been updated |
| Turn.Advance | src/models/GameBoard.ts:284-408 | an off-board target leaves the board as it was; an empty target is entered: the only changes are the kaiju's record at the target, its old cell cleared and the new one given to it |
| Turn.AdvanceIntoKaiju | src/models/GameBoard.ts:294-302 | advancing into a cell shown as a kaiju is a fight with the kaiju indexed there |
| Turn.AdvanceIntoBuilding | src/models/GameBoard.ts:304-351 | advancing into a cell shown as a building is entering the building indexed there |
| Turn.AdvanceIntoObstacle | src/models/GameBoard.ts:353-375 | advancing into a cell shown as an obstacle is meeting the obstacle indexed there |
| Turn.AdvanceIntoBed | src/models/GameBoard.ts:377-404 | advancing into a cell shown as a bed is arriving at the bed indexed there |
| Turn.Step | src/models/GameBoard.ts:278-290 | a removed, dead or home kaiju is skipped; an off-board target only clears immobilisation; an empty target is entered and nothing but the kaiju's record and its two cells changes |
| Turn.StepKeepsWf | src/models/GameBoard.ts:278-409 | one kaiju's move keeps the board well formed |
| Turn.StepProgress | src/models/GameBoard.ts:278-409 | one kaiju's move keeps counters and budget, never lowers the score, never adds an entity and keeps home kaiju home |
| Turn.ImmobilisedKaijuTiesWithItself | src/models/GameBoard.ts:282-302 | an immobilised kaiju on its own cell fights itself, ties, and only loses the immobilisation |
| Turn.WeakerMoverDiesInPlace | src/models/GameBoard.ts:294-302 | a mover that meets a stronger kaiju dies where it stands, with the grid unchanged |
| Turn.StrongerMoverTakesTheCell | src/models/GameBoard.ts:294-302 | a mover that meets a weaker kaiju removes it from the index and the order, and takes its cell |
| Turn.HomeCountCountsHomeKaiju | src/models/GameBoard.ts:382-383 | over a duplicate-free list, the count equals the number of distinct indexed kaiju that are home |
| Turn.ArrivalsAreHomeKaiju | src/models/GameBoard.ts:382-383 | the arrival count is the number of kaiju in the index that are already home |
| Turn.RunSteps | src/models/GameBoard.ts:278-410 | running the kaiju in turn keeps the board well formed, never lowers the score, never adds an entity and keeps home kaiju home |
| Turn.ProcessTurn | src/models/GameBoard.ts:265-413 | at the move limit it refuses with no change; otherwise the move count rises by one and the turn is accepted; budget, size and limit never change, the score never drops, no kaiju is added or leaves its bed, and surviving kaiju keep their relative order |
| CommandManager.CreateDirectionCommand | src/models/CommandManager.ts:13-19 | a direction command costs 10 and carries its direction |
| CommandManager.CreateStompCommand | src/models/CommandManager.ts:22-27 | a stomp command costs 20 and has no direction |
| CommandManager.CreatePowerUpCommand | src/models/CommandManager.ts:30-35 | a power-up command costs 30 and has no direction |
| CommandManager.GetAvailableCommands | src/models/CommandManager.ts:125-134 | six commands at list price, directions exactly on the direction commands, including a stomp and a power-up |
| CommandManager.EveryDirectionIsOffered | src/models/CommandManager.ts:125-134 | each of the four directions is offered at 10 |
| CommandManager.GetCommandCost | src/models/CommandManager.ts:137-139 | a type's cost is its list price, the one every offered command of that type carries |
| CommandManager.PlaceCommandOnBuilding | src/models/CommandManager.ts:38-63 | it succeeds exactly when the building exists, the floor is 0 or 1 and free, and the cost is covered; then the cost is debited and the command written with nothing else changed; failure changes nothing |
| CommandManager.PlaceCommandKeepsWf | src/models/CommandManager.ts:38-63 | placing a command keeps the board well formed |
| CommandManager.PlacedFloorStaysTaken | src/models/CommandManager.ts:51-54 | after a placement succeeds, any further placement on that floor fails and costs nothing, and the first command stays |
| CommandManager.PlaceCommandAtPosition | src/models/CommandManager.ts:66-75 | it refuses unless the cell shows a building, and then it is exactly placing on that building: success exactly when the floor is 0 or 1 and free and the cost is covered, which debits the cost, writes the command and changes nothing else; a refusal changes nothing |
| CommandManager.PlaceAtPositionKeepsWf | src/models/CommandManager.ts:66-75 | placing by cell keeps the board well formed |
| CommandManager.ExecuteStompAtPosition | src/models/CommandManager.ts:107-122 | with a building at the cell, all its floors' value is returned and the board becomes exactly the old one without that building in index and grid (score, kaiju, obstacles, beds, order and counters untouched); without a building it yields 0 and no change |
| CommandManager.ExecuteStompKeepsWf | src/models/CommandManager.ts:107-122 | a manual stomp keeps the board well formed |
| CommandManager.ExecuteCommandAtPosition | src/models/CommandManager.ts:78-104 | a stomp command on the exposed floor stomps the building; no building, no floor, no command or another command type yields 0 and no change |
| CommandManager.StompTwiceYieldsNothing | src/models/CommandManager.ts:107-122 | a second manual stomp at the same cell finds nothing and changes nothing |
| GameService.NewGameService | src/services/GameService.ts:20-24 | a new service has an empty board and a generator of the configured size, and no layout yet |
| GameService.LoadMap | src/services/GameService.ts:69-73 | loading resets first: move and score 0, full budget, exactly the layout's on-board cells filled, every kaiju new |
| GameService.LoadedEntryIsInstalled | src/services/GameService.ts:69-73 | after a reset and load, every on-board layout entry is indexed as the entity it describes |
| GameService.LoadedCellHoldsLastEntry | src/services/GameService.ts:69-73 | a cell shows the last layout entry that names it |
| GameService.LoadedKaiju | src/services/GameService.ts:69-73 | the k-th kaiju entry is in the order exactly when its position is on the board, and then it is indexed as a new kaiju of its type, position and direction |
| GameService.LoadedOrderFollowsLayout | src/services/GameService.ts:69-73 | every kaiju in the loaded order comes from a kaiju entry of the layout, and earlier in the order means earlier in the layout |
| GameService.LoadedIdIsKaijuEntry | src/models/GameBoard.ts:100-105 | each identity loading appends names one kaiju entry of the layout |
| GameService.InitGame | src/services/GameService.ts:27-31 | a new game loads a freshly generated layout after a reset, starting at move 0 with score 0 and full budget |
| GameService.EntryCellIsSpawned | src/models/GameBoard.ts:72-105 | every on-board cell named by a layout entry is filled by loading |
| GameService.InitGameFillsEveryCell | src/services/GameService.ts:27-31 | when generator and board agree in size, a new game leaves no cell empty |
| GameService.PlaceCommand | src/services/GameService.ts:44-46 | the service's placement is the command manager's, and the budget drops by the cost exactly when it succeeds |
| GameService.ExecuteTurn | src/services/GameService.ts:49-51 | the service's turn is the board's turn, and the board stays well formed |
| GameService.IsGameOver | src/services/GameService.ts:54-56 | the game is over exactly when the move limit is reached or every indexed kaiju is dead or home |
| GameService.GetInitialBudget | src/services/GameService.ts:91-93 | the reported initial budget is always 110, so it disagrees with any board built with another budget |
| GameService.Apply | src/services/GameService.ts:44-51 | a placement goes through exactly when the cell shows a building whose floor 0 or 1 is free and the cost is covered, and then debits exactly the cost; a turn goes through exactly while moves remain and debits nothing; the score never drops |
| GameService.Play | src/services/GameService.ts:44-51 | over a sequence of actions one flag is reported per action, the budget left is the start less the costs of the placements flagged as done, and the score never drops; with non-negative costs the budget stays between 0 and its start |
| GameService.PlayReportsEachAction | src/services/GameService.ts:44-51 | the flag reported for the i-th action is the outcome of applying it after the actions before it |
| GameService.PlayOneMore | src/services/GameService.ts:44-51 | playing one more action is applying it to the state the earlier actions left |

## Left out

- The React components and `App.tsx`: rendering, timers, alerts, and recording and replaying test plans.
- `console.log` calls: output only.
- `GameBoard.generateMap` (src/models/GameBoard.ts:108-161): a random placement routine that the service never calls.
- Randomness:
  - The random building category in the map generator is a parameter `pick: Position -> BuildingType`.
  - The random suffix of entity ids is a serial number the board issues, so identities are distinct by construction.
- Rules found only in the help text are not implemented in the code and are not modelled:
  - combat ties broken by bed tier;
  - stomp costing two moves;
  - power-up adding 1000;
  - direction commands turning a kaiju.
- Numbers are unbounded integers. `Math.floor` of a non-negative half is Dafny's `/`. Floating-point values such as a floor of 0.5 are not modelled: the floor argument is an `int`.
- Negative board or generator dimensions: `GameService.InitGame` and `MapGenerator.GenerateMap` require non-negative sizes.
- GameBoard.NewBoard: accepts a negative row count, where the constructor's `Array(this.rows)` throws a RangeError (src/models/GameBoard.ts:43); the model gives an empty board instead.
- GameBoard.Reset: accepts a negative row count, where `Array(this.rows)` throws a RangeError (src/models/GameBoard.ts:62).
- GameService.NewGameService: builds its board with `GameBoard.NewBoard`, so a negative row count gives an empty board instead of the constructor's RangeError.
- MapGenerator.KaijuData: the direction is a `Direction`, while the layout's direction is a free string (src/services/MapGenerator.ts:20). A string outside the enum makes `move` return the kaiju's own cell (src/models/Kaiju.ts:131-146); that case is not modelled.
- `loadMap` with `null` data or missing lists: a layout always has all four lists. An empty list behaves like a missing one.
- Enum cardinalities and the optional direction field are stated by the datatype declarations in `types.dfy`, not by lemmas.
- Entities are addressed through the board's indexes rather than by object reference. Mutating an object the turn holds is modelled as writing its record back into the index.
- Plain getters (`getScore`, `getRows`, `getGrid`, `getBuildings` and the like) are modelled as field reads, with no contract.
- Turn.HomeCount: counts over the kaiju order rather than over the index values. The two agree on well-formed boards (`Turn.ArrivalsAreHomeKaiju`).
