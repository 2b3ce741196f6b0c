/** The board: a rows-by-columns grid of tiles addressed by a column letter from
    'a' and a row number from 1. The board only stores and fetches occupants;
    all occupancy and ownership rules belong to the engine. */
module Boards {
  import opened Exceptions
  import opened Characters
  import opened Tiles

  /** A tile address: a column letter and a 1-based row. */
  datatype Position = Position(column: char, row: int)

  /** Column keys are letters, so a board has at most 26 columns ('a'..'z'). */
  const MaxColumns: int := 26

  class Board {
    const rows: int
    const columns: int
    /** The grid, one tile per address. */
    var tiles: map<Position, Tile>
    /** What stands on each tile (null for an empty tile), kept equal to the
        tiles' own occupant fields. */
    ghost var occupants: map<Position, Chara?>
    /** The address of each tile: every address has a tile of its own. */
    ghost var addressOf: map<Tile, Position>

    /** The addresses the board has a tile for. */
    predicate InBounds(p: Position)
    {
      'a' as int <= p.column as int < 'a' as int + columns && 1 <= p.row <= rows
    }

    /** Every in-bounds address has its own tile, no other address has one, and
        `occupants` records each tile's occupant. */
    ghost predicate Valid()
      reads this`tiles, this`occupants, this`addressOf, tiles.Values`occupyingEntity
    {
      && (forall p :: p in tiles <==> InBounds(p))
      && (forall p :: p in tiles ==> tiles[p] in addressOf && addressOf[tiles[p]] == p)
      && occupants.Keys == tiles.Keys
      && (forall p :: p in tiles ==> tiles[p].occupyingEntity == occupants[p])
    }

    /** The tile at an address as a frame: that tile, or none off the board. */
    ghost function TileAt(p: Position): set<Tile>
      reads this`tiles
    {
      if p in tiles then {tiles[p]} else {}
    }

    /** Builds one fresh, empty plain tile for every column 'a'..'a'+columns-1 and
        every row 1..rows, column by column. */
    constructor (rows: int, columns: int)
      requires columns <= MaxColumns
      ensures this.rows == rows && this.columns == columns
      ensures Valid()
      ensures forall p :: p in tiles ==> fresh(tiles[p])
      ensures fresh(tiles.Values)
      ensures forall p :: p in occupants ==> occupants[p] == null
      ensures forall p :: p in tiles ==> tiles[p].occupyingEntity == null && tiles[p].effects == []
      ensures forall p :: p in tiles ==> tiles[p].terrain == Terrain.Plain
    {
      this.rows := rows;
      this.columns := columns;
      var grid: map<Position, Tile> := map[];
      ghost var addresses: map<Tile, Position> := map[];
      var column := 0;
      while column < columns
        invariant 0 <= column && (column <= columns || column == 0)
        invariant forall p :: p in grid <==>
          ('a' as int <= p.column as int < 'a' as int + column && 1 <= p.row <= rows)
        invariant forall p :: p in grid ==> grid[p] in addresses && addresses[grid[p]] == p
        invariant forall p :: p in grid ==> fresh(grid[p])
        invariant forall p :: p in grid ==> grid[p].occupyingEntity == null && grid[p].effects == []
        invariant forall p :: p in grid ==> grid[p].terrain == Terrain.Plain
      {
        var columnKey := ('a' as int + column) as char;
        grid, addresses := AddColumn(grid, addresses, columnKey, rows);
        column := column + 1;
      }
      tiles := grid;
      addressOf := addresses;
      occupants := map p | p in grid :: null;
      forall t | t in grid.Values ensures fresh(t) {
        var p :| p in grid && grid[p] == t;
      }
    }

    /** The constructor's inner loop: a fresh, empty plain tile for each row
        1..rows of column `columnKey`, which has none yet. */
    static method AddColumn(grid: map<Position, Tile>, ghost addresses: map<Tile, Position>, columnKey: char, rows: int)
      returns (grid': map<Position, Tile>, ghost addresses': map<Tile, Position>)
      requires forall p :: p in grid ==> p.column != columnKey
      requires forall p :: p in grid ==> grid[p] in addresses && addresses[grid[p]] == p
      ensures forall p :: p in grid' <==> p in grid || (p.column == columnKey && 1 <= p.row <= rows)
      ensures forall p :: p in grid ==> grid'[p] == grid[p]
      ensures forall p :: p in grid' ==> grid'[p] in addresses' && addresses'[grid'[p]] == p
      ensures forall p :: p in grid' && p !in grid ==> fresh(grid'[p])
      ensures forall p :: p in grid' && p !in grid ==>
                grid'[p].occupyingEntity == null && grid'[p].effects == [] && grid'[p].terrain == Terrain.Plain
    {
      grid', addresses' := grid, addresses;
      var row := 1;
      while row < rows + 1
        invariant 1 <= row && (row <= rows + 1 || row == 1)
        invariant forall p :: p in grid' <==> p in grid || (p.column == columnKey && 1 <= p.row < row)
        invariant forall p :: p in grid ==> grid'[p] == grid[p]
        invariant forall p :: p in grid' ==> grid'[p] in addresses' && addresses'[grid'[p]] == p
        invariant forall p :: p in grid' && p !in grid ==> fresh(grid'[p])
        invariant forall p :: p in grid' && p !in grid ==>
                    grid'[p].occupyingEntity == null && grid'[p].effects == [] && grid'[p].terrain == Terrain.Plain
      {
        var tile := new Tile.Plain();
        grid' := grid'[Position(columnKey, row) := tile];
        addresses' := addresses'[tile := Position(columnKey, row)];
        row := row + 1;
      }
    }

    /** The tile at an address, or TileDoesNotExist when the board has none. */
    function GetTile(column: char, row: int): (r: Result<Tile>)
      requires Valid()
      reads this`tiles, this`occupants, this`addressOf, tiles.Values`occupyingEntity
      ensures r.Ok? <==> InBounds(Position(column, row))
      ensures r.Ok? ==> r.value == tiles[Position(column, row)]
      ensures r.Err? ==> r.error == TileDoesNotExist(column, row)
    {
      var p := Position(column, row);
      if p in tiles then Ok(tiles[p]) else Err(TileDoesNotExist(column, row))
    }

    /** The occupant at an address (null when empty); fails exactly when the
        address is off the board. */
    function GetEntityAt(column: char, row: int): (r: Result<Chara?>)
      requires Valid()
      reads this`tiles, this`occupants, this`addressOf, tiles.Values`occupyingEntity
      ensures r.Ok? <==> InBounds(Position(column, row))
      ensures r.Ok? ==> r.value == occupants[Position(column, row)]
      ensures r.Err? ==> r.error == TileDoesNotExist(column, row)
    {
      var tile := GetTile(column, row);
      if tile.Err? then Err(tile.error) else Ok(tile.value.occupyingEntity)
    }

    /** Overwrites the occupant at an address, with no occupancy check; null
        empties the tile. Off the board it fails and changes nothing; otherwise
        only that tile's occupant changes, and no tile's effects. */
    method SetEntityAt(column: char, row: int, entity: Chara?) returns (r: Outcome)
      requires Valid()
      modifies this`occupants, TileAt(Position(column, row))`occupyingEntity
      ensures Valid()
      ensures r.Pass? <==> InBounds(Position(column, row))
      ensures r.Fail? ==> r.error == TileDoesNotExist(column, row)
      ensures occupants == if r.Pass? then old(occupants)[Position(column, row) := entity]
                           else old(occupants)
    {
      var tile := GetTile(column, row);
      if tile.Err? {
        return Fail(tile.error);
      }
      tile.value.SetOccupyingEntity(entity);
      occupants := occupants[Position(column, row) := entity];
      r := Pass;
    }

    /** Copies the occupant of `from` onto `to`, then empties `from`. Either
        address off the board fails before anything is written (`from` is
        checked first). Moving a tile onto itself leaves it empty. */
    method MoveEntity(fromColumn: char, fromRow: int, toColumn: char, toRow: int) returns (r: Outcome)
      requires Valid()
      modifies this`occupants, tiles.Values`occupyingEntity
      ensures Valid()
      ensures !InBounds(Position(fromColumn, fromRow)) ==> r == Fail(TileDoesNotExist(fromColumn, fromRow))
      ensures InBounds(Position(fromColumn, fromRow)) && !InBounds(Position(toColumn, toRow)) ==>
                r == Fail(TileDoesNotExist(toColumn, toRow))
      ensures r.Pass? <==> InBounds(Position(fromColumn, fromRow)) && InBounds(Position(toColumn, toRow))
      ensures r.Fail? ==> occupants == old(occupants)
      ensures r.Pass? ==>
                occupants == old(occupants)
                  [Position(toColumn, toRow) := old(occupants)[Position(fromColumn, fromRow)]]
                  [Position(fromColumn, fromRow) := null]
      ensures r.Pass? && Position(fromColumn, fromRow) == Position(toColumn, toRow) ==>
                occupants[Position(fromColumn, fromRow)] == null
    {
      var entity := GetEntityAt(fromColumn, fromRow);
      if entity.Err? {
        return Fail(entity.error);
      }
      r := SetEntityAt(toColumn, toRow, entity.value);
      if r.Fail? {
        return;
      }
      r := SetEntityAt(fromColumn, fromRow, null);
    }
  }
}
