/** The engine's pure helpers: Manhattan distance between tiles, the move and
    attack range tests, and whose turn it is. */
module Rules {
  import opened Characters
  import opened Boards

  function Abs(x: int): (r: int)
    ensures r >= 0 && (r == x || r == -x)
  {
    if x < 0 then -x else x
  }

  /** |column difference| + |row difference|, columns compared by their letter's
      code. It is never negative and is zero only from a tile to itself. */
  function Distance(from: Position, to: Position): (d: int)
    ensures d >= 0
    ensures d == 0 <==> from == to
  {
    Abs(from.column as int - to.column as int) + Abs(from.row - to.row)
  }

  lemma DistanceSymmetric(a: Position, b: Position)
    ensures Distance(a, b) == Distance(b, a)
  {
  }

  /** A unit may move at most `moveRange` tiles. The test says whether two
      tiles are in range of each other, so it does not depend on direction;
      no tile, not even the unit's own, is in a negative range. */
  function IsWithinMoveRange(from: Position, to: Position, moveRange: int): (r: bool)
    ensures r <==> moveRange >= Distance(to, from)
    ensures from == to ==> (r <==> moveRange >= 0)
    ensures moveRange < 0 ==> !r
  {
    moveRange >= Distance(from, to)
  }

  /** A unit may attack tiles whose distance lies in [minAttackRange,
      maxAttackRange]. The test does not depend on direction, an empty range
      reaches nothing, and a minimum range of at least 1 never reaches the
      unit's own tile. */
  function IsWithinAttackRange(from: Position, to: Position, minAttackRange: int, maxAttackRange: int): (r: bool)
    ensures r <==> minAttackRange <= Distance(to, from) <= maxAttackRange
    ensures maxAttackRange < minAttackRange ==> !r
    ensures minAttackRange >= 1 && r ==> from != to
  {
    var distance := Distance(from, to);
    distance >= minAttackRange && distance <= maxAttackRange
  }

  /** With every archetype moving one tile, a move to another tile is in range
      exactly when the two tiles are neighbours. */
  lemma MoveReachOfArchetype(kind: Archetype, from: Position, to: Position)
    requires from != to
    ensures IsWithinMoveRange(from, to, ProfileOf(kind).moveSpeed) <==> Distance(from, to) == 1
  {
  }

  /** Every archetype can strike a neighbour; only the Mage reaches a tile two
      steps away, and nothing reaches further or its own tile. */
  lemma AttackReachOfArchetype(kind: Archetype, from: Position, to: Position)
    ensures IsWithinAttackRange(from, to, ProfileOf(kind).minAttackRange, ProfileOf(kind).maxAttackRange)
            <==> Distance(from, to) == 1 || (kind == Mage && Distance(from, to) == 2)
  {
  }

  /** Player 1 plays the odd turns and player 2 the even ones. Java's truncating
      `%` and Dafny's Euclidean `%` agree on whether the remainder is zero, so
      this holds for negative turn numbers too. */
  function TurnPlayer(turn: int): (player: int)
    ensures player == 1 || player == 2
    ensures player == 1 <==> turn % 2 == 1
  {
    if turn % 2 != 0 then 1 else 2
  }

  /** The other player of the two. */
  function Opponent(player: int): (other: int)
    ensures player == 1 ==> other == 2
    ensures player != 1 ==> other == 1
  {
    if player == 1 then 2 else 1
  }

  /** Each new turn belongs to the player who did not have the previous one. */
  lemma TurnsAlternate(turn: int)
    ensures TurnPlayer(turn + 1) == Opponent(TurnPlayer(turn))
    ensures TurnPlayer(turn + 2) == TurnPlayer(turn)
  {
  }
}
