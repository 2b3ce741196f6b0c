# ProjectCola rules engine in Dafny

ProjectCola is a two-player, turn-based tactics game played on a grid. This
project models its rules engine together with the board, tile and unit classes
the engine changes, and proves what the engine promises about them.

- **Units.** A unit (`Chara`) is created as a Knight, Rogue, Priest or Mage.
  Its archetype fixes its name, maximum health, attack power, attack range,
  move speed and actions per turn.
- **Board.** The board is a rows-by-columns grid of plain tiles. Tiles are
  addressed by a column letter from `a` and a row number from 1, and each
  tile holds at most one unit.
- **Engine state.** The engine (`ProjectColaEngine`) owns the board, each
  player's roster of units, the turn counter and the winner.
- **Commands.** The engine carries out moves, attacks, end of turn and
  forfeit.
  - Each command runs its checks in a fixed order, and the first failing
    check is the command's error.
  - A failed command changes nothing.
  - A successful command changes exactly the state the game rules say it
    does.

The model keeps the source's object form:

- `Chara`, `Tile`, `Board` and `ProjectColaEngine` are classes whose methods
  update fields in place.
- The tiles and the rosters share units by reference.
- Exceptions become the `Error` datatype.
- A method that may throw returns `Outcome` (for a `void` method) or
  `Result` (for a method that returns a value).

The engine invariant `Engine.ProjectColaEngine.Valid` holds after
construction and after every command:

- the board has exactly one tile per address;
- every rostered unit stands on exactly one tile;
- every occupied tile holds a rostered unit of the right player;
- rosters have no duplicates;
- every unit is alive and has its archetype's constants.

Files:

- `exceptions.dfy`: the errors and the outcome wrappers.
- `characters.dfy`: the archetype stat table and the unit class.
- `tiles.dfy`: tiles and terrain.
- `board.dfy`: the grid.
- `rules.dfy`: distance, the range tests and turn order.
- `rosters.dfy`: `List.remove` on a roster.
- `engine.dfy`: the engine, its invariant and the lemmas that keep it.

## Model

| member | source | states |
|---|---|---|
| Characters.ProfileOf | src/main/java/axk9084/ProjectCola/model/chara/Knight.java:8-18 | the stat table of the four archetype classes (Knight.java, Rogue.java, Priest.java, Mage.java, each at lines 8-18): every archetype has positive health and attack power, a minimum attack range of 1 and a move speed of 1; the maximum attack range is 2 exactly for the Mage and 1 otherwise; actions per turn are 2 exactly for the Rogue and 1 otherwise |
| Characters.Chara.constructor | src/main/java/axk9084/ProjectCola/model/chara/Chara.java:43-55 | a new unit carries its archetype's constants and the given player, and starts at full health with its whole action allotment |
| Characters.Chara.DecrementActionsRemaining | src/main/java/axk9084/ProjectCola/model/chara/Chara.java:97-99 | actions remaining drop by exactly 1 with no lower bound; only that field may change |
| Characters.Chara.ResetActionsRemaining | src/main/java/axk9084/ProjectCola/model/chara/Chara.java:101-103 | actions remaining become the allotment (so a second reset changes nothing); health untouched |
| Characters.Chara.TakeDamage | src/main/java/axk9084/ProjectCola/model/chara/Chara.java:105-107 | health drops by exactly the damage with no floor; actions untouched |
| Characters.Chara.IsDead | src/main/java/axk9084/ProjectCola/model/chara/Chara.java:109-111 | a unit is dead exactly when its health is zero or below, so any positive health means alive |
| Tiles.Tile.Plain | src/main/java/axk9084/ProjectCola/model/board/tile/Tile.java:17-19 | a new plain tile has no occupant and an empty effects list |
| Tiles.Tile.SetOccupyingEntity | src/main/java/axk9084/ProjectCola/model/board/tile/Tile.java:25-27 | the occupant becomes the argument (null empties the tile); the effects are not touched |
| Tiles.Tile.SetEffects | src/main/java/axk9084/ProjectCola/model/board/tile/Tile.java:33-35 | the effects become the argument; the occupant is not touched |
| Tiles.Tile.TerrainEffects | src/main/java/axk9084/ProjectCola/model/board/tile/PlainTile.java:14-16 | plain terrain contributes no effects, whatever the occupant and effects list |
| Boards.Board.constructor | src/main/java/axk9084/ProjectCola/model/board/Board.java:29-46 | the board has exactly one fresh, empty, effect-free plain tile for each column 'a'..'a'+columns-1 and row 1..rows, distinct addresses having distinct tiles; rows and columns are the arguments |
| Boards.Board.AddColumn | src/main/java/axk9084/ProjectCola/model/board/Board.java:39-43 | the inner loop adds one fresh empty plain tile for every row 1..rows of the new column and keeps every tile already there |
| Boards.Board.GetTile | src/main/java/axk9084/ProjectCola/model/board/Board.java:56-70 | succeeds exactly on in-bounds addresses, returning that address's tile; otherwise TileDoesNotExist with the address |
| Boards.Board.GetEntityAt | src/main/java/axk9084/ProjectCola/model/board/Board.java:81-85 | succeeds exactly on in-bounds addresses, returning the occupant (null when empty); otherwise TileDoesNotExist |
| Boards.Board.SetEntityAt | src/main/java/axk9084/ProjectCola/model/board/Board.java:87-91 | in bounds, overwrites that one tile's occupant with no occupancy check (null allowed) and every other tile keeps its occupant; off the board, TileDoesNotExist and nothing changes |
| Boards.Board.MoveEntity | src/main/java/axk9084/ProjectCola/model/board/Board.java:93-98 | with both addresses in bounds, the target gets the source's old occupant and the source is emptied (so a tile moved onto itself ends empty); otherwise TileDoesNotExist for the source first, then the target, and the board is unchanged |
| Rules.Abs | src/main/java/axk9084/ProjectCola/controller/ProjectColaEngine.java:220 | the absolute value is non-negative and is x or -x |
| Rules.Distance | src/main/java/axk9084/ProjectCola/controller/ProjectColaEngine.java:219-221 | the Manhattan distance is never negative and is zero exactly from a tile to itself |
| Rules.DistanceSymmetric | src/main/java/axk9084/ProjectCola/controller/ProjectColaEngine.java:219-221 | distance from a to b equals distance from b to a |
| Rules.IsWithinMoveRange | src/main/java/axk9084/ProjectCola/controller/ProjectColaEngine.java:234-236 | a move is in range exactly when the distance back is at most the move range (the tiles are in range of each other); a negative range reaches nothing, and any non-negative range reaches the unit's own tile |
| Rules.IsWithinAttackRange | src/main/java/axk9084/ProjectCola/controller/ProjectColaEngine.java:305-310 | a tile is attackable exactly when the distance back lies within [min, max]; an empty range reaches nothing, and a minimum of at least 1 never reaches the unit's own tile |
| Rules.MoveReachOfArchetype | src/main/java/axk9084/ProjectCola/controller/ProjectColaEngine.java:234-236 | with the archetypes' move speed, a move to another tile is in range exactly when the tiles are neighbours |
| Rules.AttackReachOfArchetype | src/main/java/axk9084/ProjectCola/controller/ProjectColaEngine.java:305-310 | with the archetypes' ranges, a tile is attackable exactly at distance 1, or at distance 2 for a Mage |
| Rules.TurnPlayer | src/main/java/axk9084/ProjectCola/controller/ProjectColaEngine.java:100-103 | the turn player is 1 or 2, and 1 exactly on odd turns (Java's truncating remainder agrees for negative turns) |
| Rules.Opponent | src/main/java/axk9084/ProjectCola/controller/ProjectColaEngine.java:366 | the other player: 1 gives 2, anything else gives 1 |
| Rules.TurnsAlternate | src/main/java/axk9084/ProjectCola/controller/ProjectColaEngine.java:100-103 | consecutive turns belong to opposite players, and every second turn to the same one |
| Rosters.RemoveFirst | src/main/java/axk9084/ProjectCola/controller/ProjectColaEngine.java:325 | `List.remove(x)` shortens the list by one when x is present and leaves it as it is otherwise (which element goes, and the order kept, is Rosters.RemoveFirstDeletesFirst) |
| Rosters.RemoveFirstDeletesFirst | src/main/java/axk9084/ProjectCola/controller/ProjectColaEngine.java:325 | removal deletes exactly the element at the first index holding x, and keeps every element before and after it in their order |
| Rosters.RemoveFirstMultiset | src/main/java/axk9084/ProjectCola/controller/ProjectColaEngine.java:325 | removal takes exactly one occurrence of x out and keeps every other element's count |
| Rosters.RemoveFirstOfDistinct | src/main/java/axk9084/ProjectCola/controller/ProjectColaEngine.java:325 | on a roster without duplicates, removal leaves exactly the other units, still without duplicates |
| Rosters.ConsNoDuplicates | src/main/java/axk9084/ProjectCola/controller/ProjectColaEngine.java:325 | a list with a head is duplicate-free exactly when its tail is and the head does not recur |
| Engine.ProjectColaEngine.GetTurnPlayer | src/main/java/axk9084/ProjectCola/controller/ProjectColaEngine.java:100-103 | the engine's turn player is the rule's turn player for the current turn (1 on odd turns, 2 on even) |
| Engine.ProjectColaEngine.constructor | src/main/java/axk9084/ProjectCola/controller/ProjectColaEngine.java:28-36 | a new game is valid, at turn 1, with no winner, on a 6x6 board, in the opening position, every unit at full health with all its actions; the board, all its tiles and all eight units are newly allocated, so the caller may command the new game |
| Engine.ProjectColaEngine.SetupDefaultBoard | src/main/java/axk9084/ProjectCola/controller/ProjectColaEngine.java:44-71 | on an empty 6x6 board, leaves the valid opening position: player 1's Knight, Rogue, Priest, Mage on c2, d2, c1, d1 and player 2's on c5, d5, c6, d6, in roster order, all other tiles empty, every unit unspent; no tile is replaced and the rostered units are exactly eight newly allocated ones |
| Engine.ProjectColaEngine.PlaceDefaultSides | src/main/java/axk9084/ProjectCola/controller/ProjectColaEngine.java:49-63 | a new roster map holding exactly player 1's four new units then player 2's four, each side placed on its c/d tiles of rows 2 and 1, or 5 and 6, in source order; all eight units are newly allocated and unspent and no tile is replaced |
| Engine.ProjectColaEngine.SetupFinished | src/main/java/axk9084/ProjectCola/controller/ProjectColaEngine.java:49-63 | eight unspent units of the right archetypes and players, in two four-unit rosters, on their eight opening tiles of an otherwise empty board form a valid opening position |
| Engine.ProjectColaEngine.NewRoster | src/main/java/axk9084/ProjectCola/controller/ProjectColaEngine.java:52 | the player's roster becomes a new empty list; other rosters are untouched |
| Engine.ProjectColaEngine.AddDefaultSide | src/main/java/axk9084/ProjectCola/controller/ProjectColaEngine.java:51-56 | one side of the setup: the player's roster becomes exactly its new Knight, Rogue, Priest, Mage, which stand on c/d of the front and back rows; no tile is replaced |
| Engine.ProjectColaEngine.AddSideUnits | src/main/java/axk9084/ProjectCola/controller/ProjectColaEngine.java:53-56 | four new units appended to the player's roster in order and placed on their four tiles |
| Engine.ProjectColaEngine.AddPair | src/main/java/axk9084/ProjectCola/controller/ProjectColaEngine.java:53-54 | two new units appended to the player's roster in order and placed on columns c and d of the row |
| Engine.ProjectColaEngine.AddNewUnit | src/main/java/axk9084/ProjectCola/controller/ProjectColaEngine.java:53 | a newly allocated unit of the archetype and player, unspent, appended to its roster and standing on the tile |
| Engine.ProjectColaEngine.AddCharacterToBoard | src/main/java/axk9084/ProjectCola/controller/ProjectColaEngine.java:81-86 | the unit is appended to its owner's roster in every case; it stands on the tile exactly when the tile exists, and otherwise the error is TileDoesNotExist |
| Engine.ProjectColaEngine.GetCharacterAt | src/main/java/axk9084/ProjectCola/controller/ProjectColaEngine.java:115-126 | TileDoesNotExist off the board, MissingCharacter on an empty tile, and otherwise the unit on the tile |
| Engine.ProjectColaEngine.CheckTurnValidity | src/main/java/axk9084/ProjectCola/controller/ProjectColaEngine.java:135-146 | passes exactly when the unit belongs to the turn player, and otherwise fails with CharacterNotOwned(name, owner, turn player) |
| Engine.ProjectColaEngine.IsTileEmpty | src/main/java/axk9084/ProjectCola/controller/ProjectColaEngine.java:156-160 | TileDoesNotExist exactly off the board; otherwise true exactly when no unit stands there |
| Engine.ProjectColaEngine.MoveCharacter | src/main/java/axk9084/ProjectCola/controller/ProjectColaEngine.java:177-208 | the error is the first failing check in the order SameTile, source TileDoesNotExist, MissingCharacter, CharacterNotOwned, NoActionsRemaining, OutOfMoveRange, target TileDoesNotExist, TileOccupied; a failure changes no tile and no unit; a success moves the unit to the target, empties the source and costs it exactly one action, every other unit and tile unchanged; validity is kept |
| Engine.ProjectColaEngine.PerformMove | src/main/java/axk9084/ProjectCola/controller/ProjectColaEngine.java:205-207 | a checked move relocates the unit and spends one of its actions; nothing else changes and validity is kept |
| Engine.ProjectColaEngine.RelocateUnit | src/main/java/axk9084/ProjectCola/controller/ProjectColaEngine.java:206 | the board's move of a unit to an empty tile keeps the rosters and the board linked |
| Engine.ProjectColaEngine.SpendAction | src/main/java/axk9084/ProjectCola/controller/ProjectColaEngine.java:207 | a unit with an action left loses exactly one and the state stays valid |
| Engine.ProjectColaEngine.AttackCharacter | src/main/java/axk9084/ProjectCola/controller/ProjectColaEngine.java:253-291 | the error is the first failing check in the order SameTile, source TileDoesNotExist, MissingCharacter, CharacterNotOwned, NoActionsRemaining, OutOfAttackRange, target TileDoesNotExist, MissingCharacter (an empty target), NoEnemy; a failure changes nothing; a success costs the attacker one action and the enemy exactly the attack power in health, and an enemy left below 1 health leaves its tile and its roster together, its attacker's player winning if that empties the roster |
| Engine.ProjectColaEngine.PerformAttack | src/main/java/axk9084/ProjectCola/controller/ProjectColaEngine.java:282-290 | a checked attack: damage, one action spent, and death handling; the winner is set only when the defender's roster became empty |
| Engine.ProjectColaEngine.DealDamage | src/main/java/axk9084/ProjectCola/controller/ProjectColaEngine.java:284-290 | health drops by the damage; below 1 the unit is removed from tile and roster and the winner is checked, otherwise nothing else changes |
| Engine.ProjectColaEngine.CharacterDeath | src/main/java/axk9084/ProjectCola/controller/ProjectColaEngine.java:322-327 | the dead unit's tile is emptied, the unit leaves its owner's roster and the members, the state is valid again and the winner is checked |
| Engine.ProjectColaEngine.RemoveDeadUnit | src/main/java/axk9084/ProjectCola/controller/ProjectColaEngine.java:324-325 | emptying the unit's tile and removing it from its roster leaves every other unit rostered and on its tile |
| Engine.ProjectColaEngine.RemovalKeepsValid | src/main/java/axk9084/ProjectCola/controller/ProjectColaEngine.java:324-325 | after the removal the engine invariant holds and the members are the old members without the dead unit |
| Engine.ProjectColaEngine.CheckForWin | src/main/java/axk9084/ProjectCola/controller/ProjectColaEngine.java:332-338 | an empty roster makes the other player the winner; with both rosters non-empty the winner is unchanged |
| Engine.ProjectColaEngine.EndPlayerTurn | src/main/java/axk9084/ProjectCola/controller/ProjectColaEngine.java:347-359 | the turn counter goes up by exactly 1, the turn player's units get their whole allotment back, the other player's units and all health are untouched, and validity is kept |
| Engine.ProjectColaEngine.ResetCharacterActions | src/main/java/axk9084/ProjectCola/controller/ProjectColaEngine.java:391-395 | every unit of the turn player has its whole allotment, every other unit keeps its actions, and no health changes |
| Engine.ProjectColaEngine.PlayerForfeit | src/main/java/axk9084/ProjectCola/controller/ProjectColaEngine.java:365-367 | the winner becomes the player who is not the turn player, overwriting any earlier winner |
| Engine.MemberOwnRoster | src/main/java/axk9084/ProjectCola/controller/ProjectColaEngine.java:84 | in a linked state a rostered unit belongs to player 1 or 2 and is in its own player's roster |
| Engine.OccupantIsMember | src/main/java/axk9084/ProjectCola/controller/ProjectColaEngine.java:187 | in a linked state the unit on an occupied tile is rostered under its own player |
| Engine.LinkedAfterAdd | src/main/java/axk9084/ProjectCola/controller/ProjectColaEngine.java:81-86 | adding a new unit to its roster and an empty tile keeps the state linked and adds exactly that unit to the members |
| Engine.LinkedAfterMove | src/main/java/axk9084/ProjectCola/controller/ProjectColaEngine.java:206 | moving a unit to an empty tile keeps the state linked |
| Engine.LinkedAfterRemoval | src/main/java/axk9084/ProjectCola/controller/ProjectColaEngine.java:324-325 | emptying a tile and removing its unit from its roster keeps the state linked and removes exactly that unit from the members |
| Engine.DefaultSetupLinked | src/main/java/axk9084/ProjectCola/controller/ProjectColaEngine.java:49-63 | eight distinct units in the two opening rosters, on the eight opening tiles of an empty board, are linked |
| Engine.SideLinked | src/main/java/axk9084/ProjectCola/controller/ProjectColaEngine.java:52-56 | filling an empty roster with four distinct new units on four distinct empty tiles keeps the state linked |
| Engine.PairLinked | src/main/java/axk9084/ProjectCola/controller/ProjectColaEngine.java:53-54 | adding two distinct new units on two distinct empty tiles keeps the state linked and adds exactly those units to the members |
| Engine.DefaultSetupPlaced | src/main/java/axk9084/ProjectCola/controller/ProjectColaEngine.java:53-63 | the eight units placed by the setup on an empty board form the opening position |
| Engine.DefaultSpot | src/main/java/axk9084/ProjectCola/controller/ProjectColaEngine.java:53-63 | every opening tile lies in column c or d and in row 1, 2, 5 or 6 |

## Left out

- The command-line front end and the ASCII board view are I/O. They only call the engine's public commands and getters, so they are not part of this model.
- Exception classes become one `Error` datatype with the same fields. Messages and stack traces are not modelled.
- `Effect` has no implementation in the game, so an effect is only an opaque description. `Entity` is a marker interface: a tile's occupant is a `Chara` or null.
- `useCharacterAbility` and the end-of-turn cast and effect checks are empty placeholders in the game, so they are not modelled.
- Getters are reads of the fields they return. This covers `getBoard`, `getGameWinner`, `getPlayerCharacters`, the `Chara` getters, `Board.getRows`/`getColumns` and `Tile.getOccupyingEntity`/`getEffects`. Rows, columns and the unit statistics are `const` fields, so they never change.
- `getDistance`, `isWithinMoveRange` and `isWithinAttackRange` take the column and row of each tile as four arguments. Here they take two `Position`s.
- The board's nested sorted map (column key to row key to tile) is flattened into one map from `Position` to tile. The ghost map `occupants` mirrors each tile's occupant field.
- `Engine.ProjectColaEngine.constructor`: the board is created in the constructor rather than inside `setupDefaultBoard`. `board` is a `const` field, and `setupDefaultBoard` is only called from the constructor, once.
- `Engine.ProjectColaEngine.SetupDefaultBoard`: the eight `addCharacterToBoard` calls are grouped by side (`AddDefaultSide`, `AddSideUnits`) and by pair (`AddPair`). The calls still run in the same order on the same tiles.
- The `TileDoesNotExistException` catch in `setupDefaultBoard` is unreachable because every opening tile exists on a 6x6 board, so it is not modelled. The same goes for the null check in `checkTurnValidity`, the `instanceof` test in `getCharacterAt` and the `enemyChara == null` test in `attackCharacter`.
- `Engine.ProjectColaEngine.PerformAttack`: the defender takes damage and any death is handled before the attacker's action is spent. The game decrements the attacker's actions between the damage and the death check. Neither step reads the other's field, so the final state is the same.
- `Engine.ProjectColaEngine.CheckForWin`: when both rosters are empty, the contract only says one of the two players is named. The game's result depends on `HashMap` iteration order (the loop here visits 1 then 2). With one death per attack, both rosters cannot become empty at the same time.
- Java's 32-bit `int` is not modelled: `turn`, `health`, the damage arithmetic and the row arithmetic are unbounded integers. The turn counter would wrap only after about two billion turns, and health stays within a few hundred.
- `Rules.Distance`: `getDistance` subtracts rows in 32-bit `int`, so for rows near the limits of `int` it wraps. For example, a move from c1 to row -2147483648 of column d has a Java distance of -2147483648, which passes the move-range check and then fails with TileDoesNotExist. Here the distance is the true 2147483650, and the move fails with OutOfMoveRange. The command-line front end only passes single-digit rows, where the two agree.
- Tile effects are a value (`seq<Effect>`). In the game, `setEffects` stores the caller's list and `getEffects` hands out that same mutable list, so a later change through either reference shows up on the tile. That sharing is not modelled; nothing in the game uses effects yet.
- `Boards.Board.constructor`: requires at most 26 columns so that every column key is a letter. The game builds only 6x6 boards. Java would keep going past `z` into other characters.
- Commands are not blocked after a winner is set, exactly as in the game. The model adds no such guard.
- `Characters.ProfileOf`: the exact health and attack-power numbers of each archetype (Knight 50/5, Rogue 35/8, Priest 25/3, Mage 20/9) and the names are in its body. Its contract states only that they are positive, together with the ranges, speeds and action counts that the engine's rules depend on.
