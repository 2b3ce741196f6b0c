/** The rules engine: it owns the board, the two players' rosters, the turn
    counter and the winner, and it validates and carries out moves, attacks,
    end of turn and forfeit. Every command runs its checks in a fixed order, the
    first failing check is the result, and a failed command changes nothing. */
module Engine {
  import opened Exceptions
  import opened Characters
  import opened Tiles
  import opened Boards
  import opened Rules
  import opened Rosters

  /** The two fields of a unit that commands change. */
  datatype UnitState = UnitState(health: int, actionsRemaining: int)

  ghost function StateOf(c: Chara): UnitState
    reads c`health, c`actionsRemaining
  {
    UnitState(c.health, c.actionsRemaining)
  }

  /** A unit's constants are those of its archetype. */
  predicate Stock(c: Chara)
  {
    var p := ProfileOf(c.archetype);
    && c.name == p.name && c.maxHealth == p.maxHealth && c.attackPower == p.attackPower
    && c.minAttackRange == p.minAttackRange && c.maxAttackRange == p.maxAttackRange
    && c.moveSpeed == p.moveSpeed && c.actions == p.actions
  }

  /** A unit as it comes from the factory: stock statistics, full health and
      every action left. */
  ghost predicate Unspent(c: Chara)
    reads c`health, c`actionsRemaining
  {
    Stock(c) && c.health == c.maxHealth && c.actionsRemaining == c.actions
  }

  /** A unit still on the board: alive, never above its maximum health, and
      with between none and all of its actions left. */
  ghost predicate Living(c: Chara)
    reads c`health, c`actionsRemaining
  {
    && 1 <= c.health <= c.maxHealth
    && 0 <= c.actionsRemaining <= c.actions
  }

  /** What `checkForWin` leaves in the winner: a player whose roster is empty
      loses to the other; while both rosters have units the winner stays as it
      was; if both are empty, one of the two has been named. */
  ghost predicate WinnerChecked(before: Option<int>, after: Option<int>, rosters: map<int, seq<Chara>>)
    requires TwoRosters(rosters)
  {
    && (rosters[1] == [] && rosters[2] != [] ==> after == Some(2))
    && (rosters[2] == [] && rosters[1] != [] ==> after == Some(1))
    && (rosters[1] != [] && rosters[2] != [] ==> after == before)
    && (rosters[1] == [] && rosters[2] == [] ==> after == Some(1) || after == Some(2))
  }

  class ProjectColaEngine {
    const board: Board
    /** Player (1 or 2) to that player's units, in the order they were added. */
    var playerCharacters: map<int, seq<Chara>>
    var turn: int
    /** None while the game is in progress. */
    var gameWinner: Option<int>

    /** Every unit in either roster. */
    ghost function Members(): set<Chara>
      reads this`playerCharacters
    {
      MembersOf(playerCharacters)
    }

    /** The unit on a tile, or null for an empty or missing tile. */
    ghost function UnitAt(p: Position): Chara?
      reads board`occupants
    {
      if p in board.occupants then board.occupants[p] else null
    }

    /** The engine invariant apart from the units' own health and actions: the
        board is well formed, the rosters and the board describe the same units,
        and every unit has its archetype's constants. */
    ghost predicate Linked()
      reads this`playerCharacters, board`tiles, board`occupants, board`addressOf, board.tiles.Values`occupyingEntity
    {
      && board.Valid()
      && LinkedState(playerCharacters, board.occupants)
      && (forall c {:trigger Stock(c)} :: c in Members() ==> Stock(c))
    }

    /** The engine invariant: linked, and every unit in the rosters is living. */
    ghost predicate Valid()
      reads this`playerCharacters, board`tiles, board`occupants, board`addressOf, board.tiles.Values`occupyingEntity
      reads Members()`health, Members()`actionsRemaining
    {
      Linked() && forall c {:trigger Living(c)} :: c in Members() ==> Living(c)
    }

    /** `getTurnPlayer()`. */
    function GetTurnPlayer(): (player: int)
      reads this`turn
      ensures player == TurnPlayer(turn)
    {
      TurnPlayer(turn)
    }

    /** A new game: turn 1, no winner, a 6x6 board, and each player's Knight,
        Rogue, Priest and Mage placed (in that order) on c2, d2, c1, d1 for
        player 1 and c5, d5, c6, d6 for player 2; every other tile is empty and
        every unit starts at full health with all its actions. */
    constructor ()
      ensures Valid()
      ensures turn == 1 && gameWinner == None
      ensures board.rows == 6 && board.columns == 6
      ensures DefaultSetup(playerCharacters, board.occupants)
      ensures forall c :: c in Members() ==> c.health == c.maxHealth && c.actionsRemaining == c.actions
      ensures fresh(board) && fresh(board.tiles.Values) && fresh(Members())
    {
      board := new Board(6, 6);
      playerCharacters := map[];
      turn := 1;
      gameWinner := None;
      new;
      ghost var units := SetupDefaultBoard();
    }

    /** `setupDefaultBoard`: creates player 1's roster and adds their Knight,
        Rogue, Priest and Mage, then does the same for player 2. */
    method SetupDefaultBoard() returns (ghost units: set<Chara>)
      requires board.Valid() && board.rows == 6 && board.columns == 6
      requires forall p :: p in board.occupants ==> board.occupants[p] == null
      modifies this`playerCharacters, board`occupants, board.tiles.Values`occupyingEntity
      ensures Valid() && DefaultSetup(playerCharacters, board.occupants)
      ensures forall c :: c in Members() ==> c.health == c.maxHealth && c.actionsRemaining == c.actions
      ensures board.tiles == old(board.tiles)
      ensures Members() == units
      ensures fresh(units)
    {
      ghost var empty := board.occupants;
      var knight1, rogue1, priest1, mage1, knight2, rogue2, priest2, mage2;
      knight1, rogue1, priest1, mage1, knight2, rogue2, priest2, mage2, units := PlaceDefaultSides();
      SetupFinished(knight1, rogue1, priest1, mage1, knight2, rogue2, priest2, mage2, empty);
      DefaultMembers(knight1, rogue1, priest1, mage1, knight2, rogue2, priest2, mage2);
    }

    /** The body of `setupDefaultBoard`: a new roster map, then player 1's side
        on rows 2 (front) and 1 (back), then player 2's on rows 5 and 6. */
    method PlaceDefaultSides() returns (k1: Chara, r1: Chara, p1: Chara, m1: Chara, k2: Chara, r2: Chara, p2: Chara, m2: Chara,
                                       ghost units: set<Chara>)
      requires board.Valid() && board.rows == 6 && board.columns == 6
      modifies this`playerCharacters, board`occupants, board.tiles.Values`occupyingEntity
      ensures board.Valid() && board.tiles == old(board.tiles)
      ensures forall c :: c in [k1, r1, p1, m1, k2, r2, p2, m2] ==> Unspent(c)
      ensures units == {k1, r1, p1, m1, k2, r2, p2, m2} && fresh(units)
      ensures k1.archetype == Knight && r1.archetype == Rogue && p1.archetype == Priest && m1.archetype == Mage
      ensures k2.archetype == Knight && r2.archetype == Rogue && p2.archetype == Priest && m2.archetype == Mage
      ensures k1.player == 1 && r1.player == 1 && p1.player == 1 && m1.player == 1
      ensures k2.player == 2 && r2.player == 2 && p2.player == 2 && m2.player == 2
      ensures playerCharacters == map[1 := [k1, r1, p1, m1], 2 := [k2, r2, p2, m2]]
      ensures board.occupants == old(board.occupants)[Position('c', 2) := k1][Position('d', 2) := r1][Position('c', 1) := p1][Position('d', 1) := m1]
                                   [Position('c', 5) := k2][Position('d', 5) := r2][Position('c', 6) := p2][Position('d', 6) := m2]
    {
      playerCharacters := map[];
      k1, r1, p1, m1 := AddDefaultSide(1, 2, 1);
      k2, r2, p2, m2 := AddDefaultSide(2, 5, 6);
      units := {k1, r1, p1, m1, k2, r2, p2, m2};
      assert playerCharacters == map[1 := [k1, r1, p1, m1], 2 := [k2, r2, p2, m2]];
    }

    /** Once both sides are placed, the state is the valid opening position. */
    lemma SetupFinished(k1: Chara, r1: Chara, p1: Chara, m1: Chara, k2: Chara, r2: Chara, p2: Chara, m2: Chara,
                        empty: map<Position, Chara?>)
      requires board.Valid()
      requires forall c :: c in [k1, r1, p1, m1, k2, r2, p2, m2] ==> Unspent(c)
      requires k1.archetype == Knight && r1.archetype == Rogue && p1.archetype == Priest && m1.archetype == Mage
      requires k2.archetype == Knight && r2.archetype == Rogue && p2.archetype == Priest && m2.archetype == Mage
      requires k1.player == 1 && r1.player == 1 && p1.player == 1 && m1.player == 1
      requires k2.player == 2 && r2.player == 2 && p2.player == 2 && m2.player == 2
      requires forall p :: p in empty ==> empty[p] == null
      requires board.rows == 6 && board.columns == 6 && empty.Keys == board.tiles.Keys
      requires playerCharacters == map[1 := [k1, r1, p1, m1], 2 := [k2, r2, p2, m2]]
      requires board.occupants == empty[Position('c', 2) := k1][Position('d', 2) := r1][Position('c', 1) := p1][Position('d', 1) := m1]
                                       [Position('c', 5) := k2][Position('d', 5) := r2][Position('c', 6) := p2][Position('d', 6) := m2]
      ensures Valid() && DefaultSetup(playerCharacters, board.occupants)
      ensures forall c :: c in Members() ==> c.health == c.maxHealth && c.actionsRemaining == c.actions
    {
      forall c | c in Members()
        ensures Stock(c) && Living(c) && c.health == c.maxHealth && c.actionsRemaining == c.actions
      {
        assert c in [k1, r1, p1, m1] || c in [k2, r2, p2, m2];
        assert Unspent(c);
      }
      assert board.InBounds(Position('c', 1)) && board.InBounds(Position('d', 6));
      DefaultSetupLinked(k1, r1, p1, m1, k2, r2, p2, m2, empty);
      DefaultSetupPlaced(k1, r1, p1, m1, k2, r2, p2, m2, empty);
    }

    /** `playerCharacters.put(player, new ArrayList<>())`: an empty roster for
        `player`, replacing any it had. */
    method NewRoster(player: int)
      modifies this`playerCharacters
      ensures playerCharacters == old(playerCharacters)[player := []]
    {
      playerCharacters := playerCharacters[player := []];
    }

    /** One side of `setupDefaultBoard`: a new, empty roster for `player`, then
        its four units. */
    method AddDefaultSide(player: int, front: int, back: int) returns (knight: Chara, rogue: Chara, priest: Chara, mage: Chara)
      requires board.Valid() && front != back
      requires board.InBounds(Position('c', front)) && board.InBounds(Position('d', front))
      requires board.InBounds(Position('c', back)) && board.InBounds(Position('d', back))
      requires player !in playerCharacters
      modifies this`playerCharacters, board`occupants, board.tiles.Values`occupyingEntity
      ensures board.Valid() && board.tiles == old(board.tiles)
      ensures knight.archetype == Knight && rogue.archetype == Rogue && priest.archetype == Priest && mage.archetype == Mage
      ensures knight.player == player && rogue.player == player && priest.player == player && mage.player == player
      ensures forall c :: c in [knight, rogue, priest, mage] ==> Unspent(c)
      ensures fresh({knight, rogue, priest, mage})
      ensures playerCharacters == old(playerCharacters)[player := [knight, rogue, priest, mage]]
      ensures board.occupants == old(board.occupants)[Position('c', front) := knight][Position('d', front) := rogue]
                                   [Position('c', back) := priest][Position('d', back) := mage]
    {
      NewRoster(player);
      knight, rogue, priest, mage := AddSideUnits(player, front, back);
      RosterRefilled(old(playerCharacters), player, [knight, rogue, priest, mage]);
    }

    /** Adds `player`'s Knight and Rogue on columns c and d of the front row and
        its Priest and Mage on columns c and d of the back row. */
    method AddSideUnits(player: int, front: int, back: int) returns (knight: Chara, rogue: Chara, priest: Chara, mage: Chara)
      requires board.Valid() && player in playerCharacters && front != back
      requires board.InBounds(Position('c', front)) && board.InBounds(Position('d', front))
      requires board.InBounds(Position('c', back)) && board.InBounds(Position('d', back))
      modifies this`playerCharacters, board`occupants, board.tiles.Values`occupyingEntity
      ensures board.Valid() && board.tiles == old(board.tiles)
      ensures knight.archetype == Knight && rogue.archetype == Rogue && priest.archetype == Priest && mage.archetype == Mage
      ensures knight.player == player && rogue.player == player && priest.player == player && mage.player == player
      ensures forall c :: c in [knight, rogue, priest, mage] ==> Unspent(c)
      ensures fresh({knight, rogue, priest, mage})
      ensures playerCharacters == old(playerCharacters)[player := old(playerCharacters)[player] + [knight, rogue, priest, mage]]
      ensures board.occupants == old(board.occupants)[Position('c', front) := knight][Position('d', front) := rogue]
                                   [Position('c', back) := priest][Position('d', back) := mage]
    {
      knight, rogue := AddPair(player, front, Knight, Rogue);
      priest, mage := AddPair(player, back, Priest, Mage);
      RosterExtended(old(playerCharacters), player, [knight, rogue], [priest, mage], [knight, rogue, priest, mage]);
    }

    /** Two units of `player` on columns c and d of `row`, left one first. */
    method AddPair(player: int, row: int, leftKind: Archetype, rightKind: Archetype) returns (left: Chara, right: Chara)
      requires board.Valid() && player in playerCharacters
      requires board.InBounds(Position('c', row)) && board.InBounds(Position('d', row))
      modifies this`playerCharacters, board`occupants, board.tiles.Values`occupyingEntity
      ensures board.Valid() && board.tiles == old(board.tiles)
      ensures left.archetype == leftKind && left.player == player && right.archetype == rightKind && right.player == player
      ensures forall c :: c in [left, right] ==> Unspent(c)
      ensures fresh(left) && fresh(right)
      ensures playerCharacters == old(playerCharacters)[player := old(playerCharacters)[player] + [left, right]]
      ensures board.occupants == old(board.occupants)[Position('c', row) := left][Position('d', row) := right]
    {
      left := AddNewUnit(leftKind, player, 'c', row);
      right := AddNewUnit(rightKind, player, 'd', row);
      RosterExtended(old(playerCharacters), player, [left], [right], [left, right]);
    }

    /** `addCharacterToBoard(column, row, new <Kind>(player))` on a tile known to
        exist: the new unit joins its roster and stands on the tile. */
    method AddNewUnit(kind: Archetype, player: int, column: char, row: int) returns (chara: Chara)
      requires board.Valid() && player in playerCharacters && board.InBounds(Position(column, row))
      modifies this`playerCharacters, board`occupants, board.tiles.Values`occupyingEntity
      ensures board.Valid() && board.tiles == old(board.tiles)
      ensures chara.archetype == kind && chara.player == player
      ensures Unspent(chara) && fresh(chara)
      ensures playerCharacters == old(playerCharacters)[player := old(playerCharacters)[player] + [chara]]
      ensures board.occupants == old(board.occupants)[Position(column, row) := chara]
    {
      chara := new Chara(kind, player);
      var added := AddCharacterToBoard(column, row, chara);
    }

    /** `addCharacterToBoard`: appends the unit to its owner's roster, then puts
        it on the tile with no occupancy check. Off the board the tile lookup
        fails after the roster has already grown. */
    method AddCharacterToBoard(column: char, row: int, chara: Chara) returns (r: Outcome)
      requires board.Valid() && chara.player in playerCharacters
      modifies this`playerCharacters, board`occupants, board.TileAt(Position(column, row))`occupyingEntity
      ensures board.Valid()
      ensures playerCharacters == old(playerCharacters)[chara.player := old(playerCharacters)[chara.player] + [chara]]
      ensures r.Pass? <==> board.InBounds(Position(column, row))
      ensures r.Fail? ==> r.error == TileDoesNotExist(column, row)
      ensures board.occupants == if r.Pass? then old(board.occupants)[Position(column, row) := chara]
                                 else old(board.occupants)
    {
      playerCharacters := playerCharacters[chara.player := playerCharacters[chara.player] + [chara]];
      r := board.SetEntityAt(column, row, chara);
    }

    /** The unit on a tile: TileDoesNotExist off the board, MissingCharacter on
        an empty tile. */
    function GetCharacterAt(column: char, row: int): (r: Result<Chara>)
      requires board.Valid()
      reads board`tiles, board`occupants, board`addressOf, board.tiles.Values`occupyingEntity
      ensures !board.InBounds(Position(column, row)) ==> r == Err(TileDoesNotExist(column, row))
      ensures board.InBounds(Position(column, row)) && UnitAt(Position(column, row)) == null ==>
                r == Err(MissingCharacter(column, row))
      ensures r.Ok? <==> UnitAt(Position(column, row)) != null
      ensures r.Ok? ==> r.value == UnitAt(Position(column, row))
    {
      var entity := board.GetEntityAt(column, row);
      if entity.Err? then Err(entity.error)
      else if entity.value == null then Err(MissingCharacter(column, row))
      else Ok(entity.value)
    }

    /** Only the player whose turn it is may command a unit. */
    function CheckTurnValidity(chara: Chara): (r: Outcome)
      reads this`turn
      ensures r.Pass? <==> chara.player == TurnPlayer(turn)
      ensures r.Fail? ==> r.error == CharacterNotOwned(chara.name, chara.player, TurnPlayer(turn))
    {
      if chara.player != GetTurnPlayer() then Fail(CharacterNotOwned(chara.name, chara.player, GetTurnPlayer()))
      else Pass
    }

    /** Whether a tile is empty; TileDoesNotExist off the board. */
    function IsTileEmpty(column: char, row: int): (r: Result<bool>)
      requires board.Valid()
      reads board`tiles, board`occupants, board`addressOf, board.tiles.Values`occupyingEntity
      ensures r.Ok? <==> board.InBounds(Position(column, row))
      ensures r.Ok? ==> (r.value <==> UnitAt(Position(column, row)) == null)
      ensures r.Err? ==> r.error == TileDoesNotExist(column, row)
    {
      var entity := board.GetEntityAt(column, row);
      if entity.Err? then Err(entity.error) else Ok(entity.value == null)
    }

    /** Moves the turn player's unit from one tile to a neighbouring empty tile,
        spending one of its actions. Checks, first failure wins: same tile; the
        source tile exists and holds a unit; the unit is the turn player's; it
        has an action left; the target is within its move speed; the target tile
        exists and is empty. */
    method MoveCharacter(fromColumn: char, fromRow: int, toColumn: char, toRow: int) returns (outcome: Outcome)
      requires Valid()
      modifies board`occupants, board.tiles.Values`occupyingEntity, Members()`actionsRemaining
      ensures Valid()
      ensures Position(fromColumn, fromRow) == Position(toColumn, toRow) ==>
                outcome == Fail(SameTile(fromColumn, fromRow))
      ensures Position(fromColumn, fromRow) != Position(toColumn, toRow) ==>
                if !board.InBounds(Position(fromColumn, fromRow)) then
                  outcome == Fail(TileDoesNotExist(fromColumn, fromRow))
                else if old(UnitAt(Position(fromColumn, fromRow))) == null then
                  outcome == Fail(MissingCharacter(fromColumn, fromRow))
                else
                  var c := old(UnitAt(Position(fromColumn, fromRow)));
                  if c.player != TurnPlayer(turn) then
                    outcome == Fail(CharacterNotOwned(c.name, c.player, TurnPlayer(turn)))
                  else if old(c.actionsRemaining) < 1 then
                    outcome == Fail(NoActionsRemaining(c.name))
                  else if !IsWithinMoveRange(Position(fromColumn, fromRow), Position(toColumn, toRow), c.moveSpeed) then
                    outcome == Fail(OutOfMoveRange(c.name, toColumn, toRow, c.moveSpeed))
                  else if !board.InBounds(Position(toColumn, toRow)) then
                    outcome == Fail(TileDoesNotExist(toColumn, toRow))
                  else if old(UnitAt(Position(toColumn, toRow))) != null then
                    outcome == Fail(TileOccupied(c.name, toColumn, toRow))
                  else
                    outcome == Pass
      ensures outcome.Fail? ==>
                && board.occupants == old(board.occupants)
                && forall u :: u in Members() ==> StateOf(u) == old(StateOf(u))
      ensures outcome.Pass? ==>
                var c := old(UnitAt(Position(fromColumn, fromRow)));
                && c != null
                && board.occupants ==
                     old(board.occupants)[Position(toColumn, toRow) := c][Position(fromColumn, fromRow) := null]
                && StateOf(c) == UnitState(old(c.health), old(c.actionsRemaining) - 1)
                && forall u :: u in Members() && u != c ==> StateOf(u) == old(StateOf(u))
    {
      if fromColumn == toColumn && fromRow == toRow {
        return Fail(SameTile(fromColumn, fromRow));
      }
      var found := GetCharacterAt(fromColumn, fromRow);
      if found.Err? {
        return Fail(found.error);
      }
      var chara := found.value;
      outcome := CheckTurnValidity(chara);
      if outcome.Fail? {
        return;
      }
      if chara.actionsRemaining < 1 {
        return Fail(NoActionsRemaining(chara.name));
      }
      if !IsWithinMoveRange(Position(fromColumn, fromRow), Position(toColumn, toRow), chara.moveSpeed) {
        return Fail(OutOfMoveRange(chara.name, toColumn, toRow, chara.moveSpeed));
      }
      var empty := IsTileEmpty(toColumn, toRow);
      if empty.Err? {
        return Fail(empty.error);
      }
      if !empty.value {
        return Fail(TileOccupied(chara.name, toColumn, toRow));
      }
      OccupantIsMember(playerCharacters, board.occupants, Position(fromColumn, fromRow));
      PerformMove(chara, Position(fromColumn, fromRow), Position(toColumn, toRow));
      outcome := Pass;
    }

    /** The effect of a move whose checks have all passed, in the order the
        engine performs it: the board moves the unit, then the unit spends an
        action. */
    method PerformMove(chara: Chara, from: Position, to: Position)
      requires Valid()
      requires chara in Members() && UnitAt(from) == chara && board.InBounds(to) && UnitAt(to) == null
      requires chara.actionsRemaining >= 1
      modifies board`occupants, board.tiles.Values`occupyingEntity, chara`actionsRemaining
      ensures Valid()
      ensures board.occupants == old(board.occupants)[to := chara][from := null]
      ensures StateOf(chara) == UnitState(old(chara.health), old(chara.actionsRemaining) - 1)
      ensures forall u :: u in Members() && u != chara ==> StateOf(u) == old(StateOf(u))
    {
      RelocateUnit(from, to);
      SpendAction(chara);
    }

    /** `board.moveEntity` on behalf of the engine: the unit on `from` goes to
        the empty tile `to` and `from` empties; rosters and units are untouched. */
    method RelocateUnit(from: Position, to: Position)
      requires Valid()
      requires UnitAt(from) != null && board.InBounds(to) && UnitAt(to) == null
      modifies board`occupants, board.tiles.Values`occupyingEntity
      ensures Valid()
      ensures board.occupants == old(board.occupants)[to := old(UnitAt(from))][from := null]
    {
      LinkedAfterMove(playerCharacters, board.occupants, from, to);
      var moved := board.MoveEntity(from.column, from.row, to.column, to.row);
    }

    /** A rostered unit with an action left spends one. */
    method SpendAction(chara: Chara)
      requires Valid() && chara in Members() && chara.actionsRemaining >= 1
      modifies chara`actionsRemaining
      ensures Valid()
      ensures chara.actionsRemaining == old(chara.actionsRemaining) - 1
    {
      chara.DecrementActionsRemaining();
    }

    /** The turn player's unit strikes an enemy unit in its attack range,
        spending one action and dealing its attack power as damage; a unit left
        below 1 health is removed from its tile and its roster, and the winner is
        checked. Checks, first failure wins: same tile; the attacker's tile
        exists and holds a unit; the attacker is the turn player's; it has an
        action left; the target is within its attack range; the target tile
        exists and holds a unit (an empty tile is MissingCharacter); that unit is
        an enemy. */
    method AttackCharacter(fromColumn: char, fromRow: int, toColumn: char, toRow: int) returns (outcome: Outcome)
      requires Valid()
      modifies this`playerCharacters, this`gameWinner, board`occupants, board.tiles.Values`occupyingEntity
      modifies Members()`health, Members()`actionsRemaining
      ensures Valid()
      ensures Position(fromColumn, fromRow) == Position(toColumn, toRow) ==>
                outcome == Fail(SameTile(fromColumn, fromRow))
      ensures Position(fromColumn, fromRow) != Position(toColumn, toRow) ==>
                if !board.InBounds(Position(fromColumn, fromRow)) then
                  outcome == Fail(TileDoesNotExist(fromColumn, fromRow))
                else if old(UnitAt(Position(fromColumn, fromRow))) == null then
                  outcome == Fail(MissingCharacter(fromColumn, fromRow))
                else
                  var c := old(UnitAt(Position(fromColumn, fromRow)));
                  if c.player != TurnPlayer(turn) then
                    outcome == Fail(CharacterNotOwned(c.name, c.player, TurnPlayer(turn)))
                  else if old(c.actionsRemaining) < 1 then
                    outcome == Fail(NoActionsRemaining(c.name))
                  else if !IsWithinAttackRange(Position(fromColumn, fromRow), Position(toColumn, toRow),
                                               c.minAttackRange, c.maxAttackRange) then
                    outcome == Fail(OutOfAttackRange(c.name, toColumn, toRow, c.minAttackRange, c.maxAttackRange))
                  else if !board.InBounds(Position(toColumn, toRow)) then
                    outcome == Fail(TileDoesNotExist(toColumn, toRow))
                  else if old(UnitAt(Position(toColumn, toRow))) == null then
                    outcome == Fail(MissingCharacter(toColumn, toRow))
                  else if old(UnitAt(Position(toColumn, toRow))).player == TurnPlayer(turn) then
                    outcome == Fail(NoEnemy(toColumn, toRow))
                  else
                    outcome == Pass
      ensures outcome.Fail? ==>
                && board.occupants == old(board.occupants)
                && playerCharacters == old(playerCharacters) && gameWinner == old(gameWinner)
                && forall u :: u in Members() ==> StateOf(u) == old(StateOf(u))
      ensures outcome.Pass? ==>
                var a := old(UnitAt(Position(fromColumn, fromRow)));
                var d := old(UnitAt(Position(toColumn, toRow)));
                && a != null && d != null && a != d && d.player == Opponent(a.player)
                && StateOf(a) == UnitState(old(a.health), old(a.actionsRemaining) - 1)
                && StateOf(d) == UnitState(old(d.health) - a.attackPower, old(d.actionsRemaining))
                && (forall u :: u in old(Members()) && u != a && u != d ==> StateOf(u) == old(StateOf(u)))
                && if d.health < 1 then
                     && board.occupants == old(board.occupants)[Position(toColumn, toRow) := null]
                     && playerCharacters == WithoutUnit(old(playerCharacters), d)
                     && Members() == old(Members()) - {d}
                     && gameWinner == if d.player in playerCharacters && playerCharacters[d.player] == [] then Some(a.player)
                                      else old(gameWinner)
                   else
                     && board.occupants == old(board.occupants)
                     && playerCharacters == old(playerCharacters) && gameWinner == old(gameWinner)
    {
      if fromColumn == toColumn && fromRow == toRow {
        return Fail(SameTile(fromColumn, fromRow));
      }
      var found := GetCharacterAt(fromColumn, fromRow);
      if found.Err? {
        return Fail(found.error);
      }
      var chara := found.value;
      outcome := CheckTurnValidity(chara);
      if outcome.Fail? {
        return;
      }
      if chara.actionsRemaining < 1 {
        return Fail(NoActionsRemaining(chara.name));
      }
      if !IsWithinAttackRange(Position(fromColumn, fromRow), Position(toColumn, toRow),
                              chara.minAttackRange, chara.maxAttackRange) {
        return Fail(OutOfAttackRange(chara.name, toColumn, toRow, chara.minAttackRange, chara.maxAttackRange));
      }
      var target := GetCharacterAt(toColumn, toRow);
      if target.Err? {
        return Fail(target.error);
      }
      var enemyChara := target.value;
      if enemyChara.player == GetTurnPlayer() {
        return Fail(NoEnemy(toColumn, toRow));
      }
      OccupantIsMember(playerCharacters, board.occupants, Position(fromColumn, fromRow));
      OccupantIsMember(playerCharacters, board.occupants, Position(toColumn, toRow));
      PerformAttack(chara, enemyChara, Position(toColumn, toRow));
      outcome := Pass;
    }

    /** The effect of an attack whose checks have all passed: the defender takes
        the attacker's attack power as damage (and dies below 1 health), and the
        attacker spends an action. If the death empties the defender's roster,
        the attacker's player wins. */
    method PerformAttack(attacker: Chara, defender: Chara, at: Position)
      requires Valid()
      requires attacker in Members() && attacker.actionsRemaining >= 1
      requires defender in Members() && UnitAt(at) == defender && defender.player != attacker.player
      modifies this`playerCharacters, this`gameWinner, board`occupants, board.TileAt(at)`occupyingEntity
      modifies attacker`actionsRemaining, defender`health
      ensures Valid()
      ensures StateOf(attacker) == UnitState(old(attacker.health), old(attacker.actionsRemaining) - 1)
      ensures StateOf(defender) == UnitState(old(defender.health) - attacker.attackPower, old(defender.actionsRemaining))
      ensures forall u :: u in old(Members()) && u != attacker && u != defender ==> StateOf(u) == old(StateOf(u))
      ensures if defender.health < 1 then
                && board.occupants == old(board.occupants)[at := null]
                && playerCharacters == WithoutUnit(old(playerCharacters), defender)
                && Members() == old(Members()) - {defender}
                && gameWinner == if playerCharacters[defender.player] == [] then Some(attacker.player)
                                 else old(gameWinner)
              else
                && board.occupants == old(board.occupants)
                && playerCharacters == old(playerCharacters) && gameWinner == old(gameWinner)
    {
      assert Stock(attacker);
      DealDamage(defender, attacker.attackPower, at);
      SpendAction(attacker);
      MemberOwnRoster(playerCharacters, board.occupants, attacker);
      MemberOwnRoster(old(playerCharacters), old(board.occupants), defender);
    }

    /** A rostered unit standing on `at` takes `damage`; if that leaves it below
        1 health it dies. */
    method DealDamage(defender: Chara, damage: int, at: Position)
      requires Valid() && defender in Members() && UnitAt(at) == defender && damage >= 0
      modifies this`playerCharacters, this`gameWinner, board`occupants, board.TileAt(at)`occupyingEntity
      modifies defender`health
      ensures Valid()
      ensures defender.health == old(defender.health) - damage
      ensures if defender.health < 1 then
                && board.occupants == old(board.occupants)[at := null]
                && playerCharacters == WithoutUnit(old(playerCharacters), defender)
                && Members() == old(Members()) - {defender}
                && WinnerChecked(old(gameWinner), gameWinner, playerCharacters)
              else
                && board.occupants == old(board.occupants)
                && playerCharacters == old(playerCharacters) && gameWinner == old(gameWinner)
    {
      assert Living(defender);
      defender.TakeDamage(damage);
      forall c | c in Members() && c != defender ensures Living(c) {
        assert old(Living(c));
      }
      if defender.IsDead() {
        CharacterDeath(at.column, at.row, defender);
      } else {
        assert Living(defender);
      }
    }

    /** Removes a dead unit from its tile and its owner's roster together, then
        checks for a winner. */
    method CharacterDeath(column: char, row: int, chara: Chara)
      requires Linked() && UnitAt(Position(column, row)) == chara
      requires forall c :: c in Members() && c != chara ==> Living(c)
      modifies this`playerCharacters, this`gameWinner, board`occupants, board.TileAt(Position(column, row))`occupyingEntity
      ensures Valid()
      ensures board.occupants == old(board.occupants)[Position(column, row) := null]
      ensures playerCharacters == WithoutUnit(old(playerCharacters), chara)
      ensures Members() == old(Members()) - {chara}
      ensures WinnerChecked(old(gameWinner), gameWinner, playerCharacters)
    {
      RemoveDeadUnit(column, row, chara);
      CheckForWin();
    }

    /** The first two steps of `characterDeath`: empties the unit's tile, then
        removes the unit from its owner's roster. */
    method RemoveDeadUnit(column: char, row: int, chara: Chara)
      requires Linked() && UnitAt(Position(column, row)) == chara
      requires forall c :: c in Members() && c != chara ==> Living(c)
      modifies this`playerCharacters, board`occupants, board.TileAt(Position(column, row))`occupyingEntity
      ensures Valid()
      ensures board.occupants == old(board.occupants)[Position(column, row) := null]
      ensures playerCharacters == WithoutUnit(old(playerCharacters), chara)
      ensures Members() == old(Members()) - {chara}
    {
      ghost var rosters, occupants := playerCharacters, board.occupants;
      OccupantIsMember(rosters, occupants, Position(column, row));
      var cleared := board.SetEntityAt(column, row, null);
      playerCharacters := playerCharacters[chara.player := RemoveFirst(playerCharacters[chara.player], chara)];
      RemovalKeepsValid(rosters, occupants, Position(column, row));
    }

    /** The state left by removing the unit on `p` from its tile and its roster
        is valid, given that the state before was linked and every other unit
        was living. */
    lemma RemovalKeepsValid(rosters: map<int, seq<Chara>>, occupants: map<Position, Chara?>, p: Position)
      requires board.Valid() && LinkedState(rosters, occupants) && p in occupants && occupants[p] != null
      requires forall c :: c in MembersOf(rosters) ==> Stock(c)
      requires forall c :: c in MembersOf(rosters) && c != occupants[p] ==> Living(c)
      requires playerCharacters == WithoutUnit(rosters, occupants[p]) && board.occupants == occupants[p := null]
      ensures Valid() && Members() == MembersOf(rosters) - {occupants[p]}
    {
      LinkedAfterRemoval(rosters, occupants, p);
    }

    /** If a roster is empty, the other player wins. Rosters are scanned in key
        order 1, 2, so when both are empty the later scan decides; nothing
        changes while both rosters have units. */
    method CheckForWin()
      requires TwoRosters(playerCharacters)
      modifies this`gameWinner
      ensures WinnerChecked(old(gameWinner), gameWinner, playerCharacters)
    {
      var players := [1, 2];
      var i := 0;
      while i < |players|
        invariant 0 <= i <= |players|
        invariant i == 0 ==> gameWinner == old(gameWinner)
        invariant i == 1 ==> gameWinner == if playerCharacters[1] == [] then Some(2) else old(gameWinner)
        invariant i == 2 ==> gameWinner == if playerCharacters[2] == [] then Some(1)
                                           else if playerCharacters[1] == [] then Some(2)
                                           else old(gameWinner)
      {
        var player := players[i];
        if playerCharacters[player] == [] {
          gameWinner := Some(Opponent(player));
        }
        i := i + 1;
      }
    }

    /** Ends the turn: every unit of the player whose turn is ending gets its
        whole action allotment back, the other player's units are untouched,
        and the turn counter goes up by one. */
    method EndPlayerTurn()
      requires Valid()
      modifies this`turn, Members()`actionsRemaining
      ensures Valid()
      ensures turn == old(turn) + 1
      ensures forall c :: c in Members() ==> c.health == old(c.health)
      ensures forall c :: c in Members() ==>
                c.actionsRemaining == if c.player == old(TurnPlayer(turn)) then c.actions else old(c.actionsRemaining)
    {
      ResetCharacterActions();
      turn := turn + 1;
    }

    /** Gives every unit of the turn player its whole action allotment back. */
    method ResetCharacterActions()
      requires Valid()
      modifies Members()`actionsRemaining
      ensures Valid()
      ensures forall c :: c in Members() ==> c.health == old(c.health)
      ensures forall c :: c in Members() ==>
                c.actionsRemaining == if c.player == TurnPlayer(turn) then c.actions else old(c.actionsRemaining)
    {
      var roster := playerCharacters[GetTurnPlayer()];
      var i := 0;
      while i < |roster|
        invariant 0 <= i <= |roster|
        invariant forall k :: 0 <= k < i ==> roster[k].actionsRemaining == roster[k].actions
        invariant forall c :: c in Members() && c !in roster[..i] ==> c.actionsRemaining == old(c.actionsRemaining)
        invariant forall c :: c in Members() ==> c.health == old(c.health)
        invariant forall c :: c in Members() ==> Living(c)
      {
        roster[i].ResetActionsRemaining();
        i := i + 1;
      }
      assert forall c :: c in Members() && c.player == TurnPlayer(turn) ==> c in roster[..i];
    }

    /** The turn player gives up: the other player becomes the winner, even if
        a winner was already recorded. */
    method PlayerForfeit()
      modifies this`gameWinner
      ensures gameWinner.Some?
      ensures gameWinner.value == Opponent(TurnPlayer(turn)) && gameWinner.value != TurnPlayer(turn)
    {
      gameWinner := Some(if GetTurnPlayer() == 1 then 2 else 1);
    }
  }

  /** `rosters` after `c` is appended to its owner's roster. */
  ghost function WithUnit(rosters: map<int, seq<Chara>>, c: Chara): map<int, seq<Chara>>
  {
    if c.player in rosters then rosters[c.player := rosters[c.player] + [c]] else rosters
  }

  /** `rosters` after `List.remove(c)` on its owner's roster. */
  ghost function WithoutUnit(rosters: map<int, seq<Chara>>, c: Chara): map<int, seq<Chara>>
  {
    if c.player in rosters then rosters[c.player := RemoveFirst(rosters[c.player], c)] else rosters
  }

  /** Every unit in the rosters of players 1 and 2. */
  ghost function MembersOf(rosters: map<int, seq<Chara>>): set<Chara>
  {
    (set c | 1 in rosters && c in rosters[1]) + (set c | 2 in rosters && c in rosters[2])
  }

  /** The rosters map holds exactly the keys 1 and 2. */
  ghost predicate TwoRosters(rosters: map<int, seq<Chara>>)
  {
    1 in rosters && 2 in rosters && forall n :: n in rosters ==> n == 1 || n == 2
  }

  /** Roster `n` holds only player `n`'s units, each once; every rostered unit
      stands on a tile; every occupied tile holds a rostered unit; and no unit
      stands on two tiles. */
  ghost predicate LinkedState(rosters: map<int, seq<Chara>>, occupants: map<Position, Chara?>)
  {
    && TwoRosters(rosters)
    && (forall c :: c in rosters[1] ==> c.player == 1)
    && (forall c :: c in rosters[2] ==> c.player == 2)
    && NoDuplicates(rosters[1]) && NoDuplicates(rosters[2])
    && (forall c {:trigger Stands(occupants, c)} :: c in MembersOf(rosters) ==> Stands(occupants, c))
    && (forall p {:trigger Holds(rosters, occupants, p)} :: p in occupants ==> Holds(rosters, occupants, p))
    && (forall p, q {:trigger Apart(occupants, p, q)} :: p in occupants && q in occupants ==> Apart(occupants, p, q))
  }

  /** The unit stands on some tile. */
  ghost predicate Stands(occupants: map<Position, Chara?>, c: Chara)
  {
    c in occupants.Values
  }

  /** The tile is empty or holds a rostered unit. */
  ghost predicate Holds(rosters: map<int, seq<Chara>>, occupants: map<Position, Chara?>, p: Position)
  {
    p in occupants && occupants[p] != null ==> occupants[p] in MembersOf(rosters)
  }

  /** Two tiles holding the same unit are one tile. */
  ghost predicate Apart(occupants: map<Position, Chara?>, p: Position, q: Position)
  {
    p in occupants && q in occupants && occupants[p] != null && occupants[p] == occupants[q] ==> p == q
  }

  /** A rostered unit is listed under its own player, who is 1 or 2. */
  lemma MemberOwnRoster(rosters: map<int, seq<Chara>>, occupants: map<Position, Chara?>, c: Chara)
    requires LinkedState(rosters, occupants) && c in MembersOf(rosters)
    ensures (c.player == 1 || c.player == 2) && c in rosters[c.player]
  {
  }

  /** The unit on an occupied tile is rostered under its own player. */
  lemma OccupantIsMember(rosters: map<int, seq<Chara>>, occupants: map<Position, Chara?>, p: Position)
    requires LinkedState(rosters, occupants) && p in occupants && occupants[p] != null
    ensures occupants[p] in MembersOf(rosters)
    ensures (occupants[p].player == 1 || occupants[p].player == 2) && occupants[p] in rosters[occupants[p].player]
  {
    assert Holds(rosters, occupants, p);
    MemberOwnRoster(rosters, occupants, occupants[p]);
  }

  /** Adding a new unit to its owner's roster and an empty tile keeps the
      state linked, and the unit joins the members. */
  lemma LinkedAfterAdd(rosters: map<int, seq<Chara>>, occupants: map<Position, Chara?>, c: Chara, p: Position)
    requires LinkedState(rosters, occupants)
    requires c !in MembersOf(rosters) && (c.player == 1 || c.player == 2) && p in occupants && occupants[p] == null
    ensures MembersOf(WithUnit(rosters, c)) == MembersOf(rosters) + {c}
    ensures LinkedState(WithUnit(rosters, c), occupants[p := c])
  {
    var rosters' := rosters[c.player := rosters[c.player] + [c]];
    var occupants' := occupants[p := c];
    ConsNoDuplicatesAppend(rosters[c.player], c);
    assert MembersOf(rosters') == MembersOf(rosters) + {c};
    forall d | d in MembersOf(rosters') ensures Stands(occupants', d) {
      if d == c {
        assert occupants'[p] == c;
      } else {
        assert Stands(occupants, d);
        var q :| q in occupants && occupants[q] == d;
        assert occupants'[q] == d;
      }
    }
    forall q | q in occupants' ensures Holds(rosters', occupants', q) {
      assert Holds(rosters, occupants, q);
    }
    forall q, r | q in occupants' && r in occupants' ensures Apart(occupants', q, r) {
      assert Apart(occupants, q, r);
      assert Holds(rosters, occupants, q) && Holds(rosters, occupants, r);
    }
  }

  /** Moving the unit on one tile to an empty tile keeps the state linked. */
  lemma LinkedAfterMove(rosters: map<int, seq<Chara>>, occupants: map<Position, Chara?>, from: Position, to: Position)
    requires LinkedState(rosters, occupants)
    requires from in occupants && occupants[from] != null && to in occupants && occupants[to] == null
    ensures LinkedState(rosters, occupants[to := occupants[from]][from := null])
  {
    var c := occupants[from];
    var occupants' := occupants[to := c][from := null];
    forall d | d in MembersOf(rosters) ensures Stands(occupants', d) {
      if d == c {
        assert occupants'[to] == c;
      } else {
        assert Stands(occupants, d);
        var q :| q in occupants && occupants[q] == d;
        assert occupants'[q] == d;
      }
    }
    forall q | q in occupants' ensures Holds(rosters, occupants', q) {
      assert Holds(rosters, occupants, q) && Holds(rosters, occupants, from);
    }
    forall q, r | q in occupants' && r in occupants' ensures Apart(occupants', q, r) {
      assert Apart(occupants, q, r) && Apart(occupants, q, from) && Apart(occupants, from, r);
    }
  }

  /** Emptying an occupied tile and dropping its unit from its roster keeps the
      state linked; the unit leaves the members and every other unit stays. */
  lemma LinkedAfterRemoval(rosters: map<int, seq<Chara>>, occupants: map<Position, Chara?>, p: Position)
    requires LinkedState(rosters, occupants) && p in occupants && occupants[p] != null
    ensures MembersOf(WithoutUnit(rosters, occupants[p])) == MembersOf(rosters) - {occupants[p]}
    ensures LinkedState(WithoutUnit(rosters, occupants[p]), occupants[p := null])
  {
    OccupantIsMember(rosters, occupants, p);
    var c: Chara := occupants[p];
    var rosters' := rosters[c.player := RemoveFirst(rosters[c.player], c)];
    var occupants' := occupants[p := null];
    RemoveFirstOfDistinct(rosters[c.player], c);
    assert MembersOf(rosters') == MembersOf(rosters) - {c};
    forall d | d in MembersOf(rosters') ensures Stands(occupants', d) {
      assert Stands(occupants, d);
      var q :| q in occupants && occupants[q] == d;
      assert occupants'[q] == d;
    }
    forall q | q in occupants' ensures Holds(rosters', occupants', q) {
      assert Holds(rosters, occupants, q) && Apart(occupants, q, p);
    }
    forall q, r | q in occupants' && r in occupants' ensures Apart(occupants', q, r) {
      assert Apart(occupants, q, r);
    }
  }

  /** The default setup is linked: eight distinct units, four in each roster
      under their own player, each on its own tile of an otherwise empty board. */
  lemma DefaultSetupLinked(k1: Chara, r1: Chara, p1: Chara, m1: Chara, k2: Chara, r2: Chara, p2: Chara, m2: Chara,
                           empty: map<Position, Chara?>)
    requires NoDuplicates([k1, r1, p1, m1, k2, r2, p2, m2])
    requires k1.player == 1 && r1.player == 1 && p1.player == 1 && m1.player == 1
    requires k2.player == 2 && r2.player == 2 && p2.player == 2 && m2.player == 2
    requires forall p :: p in empty ==> empty[p] == null
    requires Position('c', 2) in empty && Position('d', 2) in empty && Position('c', 1) in empty && Position('d', 1) in empty
    requires Position('c', 5) in empty && Position('d', 5) in empty && Position('c', 6) in empty && Position('d', 6) in empty
    ensures LinkedState(map[1 := [k1, r1, p1, m1], 2 := [k2, r2, p2, m2]],
                        empty[Position('c', 2) := k1][Position('d', 2) := r1][Position('c', 1) := p1][Position('d', 1) := m1]
                             [Position('c', 5) := k2][Position('d', 5) := r2][Position('c', 6) := p2][Position('d', 6) := m2])
  {
    var s := [k1, r1, p1, m1, k2, r2, p2, m2];
    var rosters: map<int, seq<Chara>> := map[1 := [], 2 := []];
    assert MembersOf(rosters) == {};
    var side1 := empty[Position('c', 2) := k1][Position('d', 2) := r1][Position('c', 1) := p1][Position('d', 1) := m1];
    assert s[0] != s[1] && s[0] != s[2] && s[0] != s[3] && s[1] != s[2] && s[1] != s[3] && s[2] != s[3];
    SideLinked(rosters, empty, k1, r1, p1, m1, Position('c', 2), Position('d', 2), Position('c', 1), Position('d', 1));
    var rosters1 := rosters[1 := [k1, r1, p1, m1]];
    assert MembersOf(rosters1) == {k1, r1, p1, m1};
    assert s[4] != s[0] && s[4] != s[1] && s[4] != s[2] && s[4] != s[3];
    assert s[5] != s[0] && s[5] != s[1] && s[5] != s[2] && s[5] != s[3];
    assert s[6] != s[0] && s[6] != s[1] && s[6] != s[2] && s[6] != s[3];
    assert s[7] != s[0] && s[7] != s[1] && s[7] != s[2] && s[7] != s[3];
    assert s[4] != s[5] && s[4] != s[6] && s[4] != s[7] && s[5] != s[6] && s[5] != s[7] && s[6] != s[7];
    SideLinked(rosters1, side1, k2, r2, p2, m2, Position('c', 5), Position('d', 5), Position('c', 6), Position('d', 6));
    assert rosters1[2 := [k2, r2, p2, m2]] == map[1 := [k1, r1, p1, m1], 2 := [k2, r2, p2, m2]];
  }

  /** Appending to a roster twice is appending the two runs at once. */
  lemma RosterExtended(rosters: map<int, seq<Chara>>, player: int, first: seq<Chara>, second: seq<Chara>, both: seq<Chara>)
    requires player in rosters && both == first + second
    ensures var once := rosters[player := rosters[player] + first];
            once[player := once[player] + second] == rosters[player := rosters[player] + both]
  {
    assert rosters[player] + first + second == rosters[player] + both;
  }

  /** Emptying a roster and then appending to it is the same as setting it. */
  lemma RosterRefilled(rosters: map<int, seq<Chara>>, player: int, units: seq<Chara>)
    ensures rosters[player := []][player := rosters[player := []][player] + units] == rosters[player := units]
  {
    assert [] + units == units;
  }

  /** The members of the opening rosters are exactly their eight units. */
  lemma DefaultMembers(k1: Chara, r1: Chara, p1: Chara, m1: Chara, k2: Chara, r2: Chara, p2: Chara, m2: Chara)
    ensures MembersOf(map[1 := [k1, r1, p1, m1], 2 := [k2, r2, p2, m2]]) == {k1, r1, p1, m1, k2, r2, p2, m2}
  {
  }

  /** The eight units placed by the default setup, on an otherwise empty board,
      form the opening position. */
  lemma DefaultSetupPlaced(k1: Chara, r1: Chara, p1: Chara, m1: Chara, k2: Chara, r2: Chara, p2: Chara, m2: Chara,
                           empty: map<Position, Chara?>)
    requires k1.player == 1 && r1.player == 1 && p1.player == 1 && m1.player == 1
    requires k2.player == 2 && r2.player == 2 && p2.player == 2 && m2.player == 2
    requires k1.archetype == Knight && r1.archetype == Rogue && p1.archetype == Priest && m1.archetype == Mage
    requires k2.archetype == Knight && r2.archetype == Rogue && p2.archetype == Priest && m2.archetype == Mage
    requires forall p :: p in empty ==> empty[p] == null
    ensures DefaultSetup(map[1 := [k1, r1, p1, m1], 2 := [k2, r2, p2, m2]],
                         empty[Position('c', 2) := k1][Position('d', 2) := r1][Position('c', 1) := p1][Position('d', 1) := m1]
                              [Position('c', 5) := k2][Position('d', 5) := r2][Position('c', 6) := p2][Position('d', 6) := m2])
  {
  }

  /** Unit number `index` of `player`'s roster is a `kind` standing on `p`. */
  ghost predicate PlacedIn(rosters: map<int, seq<Chara>>, occupants: map<Position, Chara?>,
                           player: int, index: int, kind: Archetype, p: Position)
  {
    && player in rosters && 0 <= index < |rosters[player]|
    && rosters[player][index].archetype == kind && rosters[player][index].player == player
    && p in occupants && occupants[p] == rosters[player][index]
  }

  /** The archetypes of each side's opening roster, in roster order. */
  const DefaultOrder: seq<Archetype> := [Knight, Rogue, Priest, Mage]

  /** Where unit `i` of `player`'s opening roster stands: the Knight and Rogue
      on columns c and d of the front row (2 for player 1, 5 for player 2), the
      Priest and Mage on columns c and d of the back row (1, or 6). */
  function DefaultSpot(player: int, i: int): (p: Position)
    ensures p.column == 'c' || p.column == 'd'
    ensures p.row in {1, 2, 5, 6}
  {
    Position(if i % 2 == 0 then 'c' else 'd',
             if player == 1 then (if i < 2 then 2 else 1) else (if i < 2 then 5 else 6))
  }

  /** The opening position: each player's roster holds four units, unit `i`
      being a `DefaultOrder[i]` of that player standing on `DefaultSpot`, and
      every tile off columns c and d or rows 1, 2, 5 and 6 is empty. */
  ghost predicate DefaultSetup(rosters: map<int, seq<Chara>>, occupants: map<Position, Chara?>)
  {
    && 1 in rosters && 2 in rosters && |rosters[1]| == 4 && |rosters[2]| == 4
    && (forall player, i :: (player == 1 || player == 2) && 0 <= i < 4 ==>
          PlacedIn(rosters, occupants, player, i, DefaultOrder[i], DefaultSpot(player, i)))
    && (forall p :: p in occupants && !((p.column == 'c' || p.column == 'd') && (p.row == 1 || p.row == 2 || p.row == 5 || p.row == 6)) ==>
          occupants[p] == null)
  }

  /** Filling a player's empty roster with four distinct new units, each put on
      its own empty tile, keeps the state linked. */
  lemma SideLinked(rosters: map<int, seq<Chara>>, occupants: map<Position, Chara?>, k: Chara, r: Chara, p: Chara, m: Chara,
                   kAt: Position, rAt: Position, pAt: Position, mAt: Position)
    requires LinkedState(rosters, occupants)
    requires (k.player == 1 || k.player == 2) && rosters[k.player] == []
    requires r.player == k.player && p.player == k.player && m.player == k.player
    requires k != r && k != p && k != m && r != p && r != m && p != m
    requires k !in MembersOf(rosters) && r !in MembersOf(rosters) && p !in MembersOf(rosters) && m !in MembersOf(rosters)
    requires kAt in occupants && rAt in occupants && pAt in occupants && mAt in occupants
    requires occupants[kAt] == null && occupants[rAt] == null && occupants[pAt] == null && occupants[mAt] == null
    requires kAt != rAt && kAt != pAt && kAt != mAt && rAt != pAt && rAt != mAt && pAt != mAt
    ensures LinkedState(rosters[k.player := [k, r, p, m]], occupants[kAt := k][rAt := r][pAt := p][mAt := m])
  {
    PairLinked(rosters, occupants, k, r, kAt, rAt);
    var rosters2, occupants2 := WithUnit(WithUnit(rosters, k), r), occupants[kAt := k][rAt := r];
    PairLinked(rosters2, occupants2, p, m, pAt, mAt);
    assert WithUnit(WithUnit(rosters2, p), m)[k.player] == [k, r, p, m];
    assert WithUnit(WithUnit(rosters2, p), m) == rosters[k.player := [k, r, p, m]];
  }

  /** Adding two distinct new units of one player, each on its own empty tile,
      keeps the state linked. */
  lemma PairLinked(rosters: map<int, seq<Chara>>, occupants: map<Position, Chara?>, a: Chara, b: Chara,
                   aAt: Position, bAt: Position)
    requires LinkedState(rosters, occupants)
    requires (a.player == 1 || a.player == 2) && b.player == a.player && a != b
    requires a !in MembersOf(rosters) && b !in MembersOf(rosters)
    requires aAt in occupants && bAt in occupants && occupants[aAt] == null && occupants[bAt] == null && aAt != bAt
    ensures MembersOf(WithUnit(WithUnit(rosters, a), b)) == MembersOf(rosters) + {a, b}
    ensures LinkedState(WithUnit(WithUnit(rosters, a), b), occupants[aAt := a][bAt := b])
  {
    LinkedAfterAdd(rosters, occupants, a, aAt);
    LinkedAfterAdd(WithUnit(rosters, a), occupants[aAt := a], b, bAt);
  }

  /** Appending a unit that is not yet listed keeps a roster free of duplicates. */
  lemma ConsNoDuplicatesAppend(s: seq<Chara>, c: Chara)
    requires NoDuplicates(s) && c !in s
    ensures NoDuplicates(s + [c])
  {
  }
}
