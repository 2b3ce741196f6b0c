/** One cell of the board: an optional occupant and a list of effects, plus the
    terrain that decides the cell's own effects. */
module Tiles {
  import opened Characters

  /** An effect on a tile. The game declares the interface but implements no
      effect, so an effect is only a description here. */
  datatype Effect = Effect(description: string)

  /** The concrete tile class. Plain is the only terrain the game has. */
  datatype Terrain = Plain

  class Tile {
    const terrain: Terrain
    var occupyingEntity: Chara?
    var effects: seq<Effect>

    /** `new PlainTile()`: no occupant and no effects. */
    constructor Plain()
      ensures terrain == Terrain.Plain
      ensures occupyingEntity == null && effects == []
    {
      terrain := Terrain.Plain;
      occupyingEntity := null;
      effects := [];
    }

    /** Overwrites the occupant (null empties the tile); effects stay. */
    method SetOccupyingEntity(entity: Chara?)
      modifies this`occupyingEntity
      ensures occupyingEntity == entity
    {
      occupyingEntity := entity;
    }

    /** Replaces the effects list; the occupant stays. */
    method SetEffects(newEffects: seq<Effect>)
      modifies this`effects
      ensures effects == newEffects
    {
      effects := newEffects;
    }

    /** The effects the terrain itself contributes. It reads no mutable field, so
        it cannot depend on the occupant or the effects list; plain terrain
        contributes none. */
    function TerrainEffects(): (r: seq<Effect>)
      ensures terrain == Terrain.Plain ==> r == []
    {
      match terrain
      case Plain => []
    }
  }
}
