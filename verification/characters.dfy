/** Units (Chara) and the four archetypes. In the game each archetype is a
    subclass of Chara that only passes constants to Chara's constructor, so here
    an archetype is a tag and its constants are one stat profile. */
module Characters {

  /** The concrete subclass a unit was created as. */
  datatype Archetype = Knight | Rogue | Priest | Mage

  /** The constants an archetype hands to the unit constructor. */
  datatype Profile = Profile(
    name: string,
    maxHealth: int,
    attackPower: int,
    minAttackRange: int,
    maxAttackRange: int,
    moveSpeed: int,
    actions: int)

  /** The stat table of the four archetypes. Every archetype moves one tile,
      starts alive, acts at least once per turn and attacks from distance 1;
      only the Mage reaches distance 2, and only the Rogue acts twice. */
  function ProfileOf(kind: Archetype): (p: Profile)
    ensures p.maxHealth >= 1 && p.attackPower >= 1
    ensures p.minAttackRange == 1 && p.minAttackRange <= p.maxAttackRange <= 2
    ensures p.maxAttackRange == 2 <==> kind == Mage
    ensures p.moveSpeed == 1
    ensures 1 <= p.actions <= 2 && (p.actions == 2 <==> kind == Rogue)
  {
    match kind
    case Knight => Profile("Knight", 50, 5, 1, 1, 1, 1)
    case Rogue => Profile("Rogue", 35, 8, 1, 1, 1, 2)
    case Priest => Profile("Priest", 25, 3, 1, 1, 1, 1)
    case Mage => Profile("Mage", 20, 9, 1, 2, 1, 1)
  }

  /** A unit on the board. Only `health` and `actionsRemaining` change after
      construction; every other field is final. */
  class Chara {
    const archetype: Archetype
    const player: int
    const name: string
    const maxHealth: int
    const attackPower: int
    const minAttackRange: int
    const maxAttackRange: int
    const moveSpeed: int
    const actions: int
    var health: int
    var actionsRemaining: int

    /** `new Knight(player)`, `new Rogue(player)`, ...: the archetype's constants
        go to the unit constructor, which starts the unit at full health with its
        whole action allotment. */
    constructor (kind: Archetype, player: int)
      ensures archetype == kind && this.player == player
      ensures name == ProfileOf(kind).name
      ensures maxHealth == ProfileOf(kind).maxHealth
      ensures attackPower == ProfileOf(kind).attackPower
      ensures minAttackRange == ProfileOf(kind).minAttackRange
      ensures maxAttackRange == ProfileOf(kind).maxAttackRange
      ensures moveSpeed == ProfileOf(kind).moveSpeed
      ensures actions == ProfileOf(kind).actions
      ensures health == maxHealth && actionsRemaining == actions
    {
      var p := ProfileOf(kind);
      archetype := kind;
      this.player := player;
      name := p.name;
      maxHealth := p.maxHealth;
      attackPower := p.attackPower;
      minAttackRange := p.minAttackRange;
      maxAttackRange := p.maxAttackRange;
      moveSpeed := p.moveSpeed;
      actions := p.actions;
      health := p.maxHealth;
      actionsRemaining := p.actions;
    }

    /** Uses one action. There is no lower bound: the caller checks first. */
    method DecrementActionsRemaining()
      modifies this`actionsRemaining
      ensures actionsRemaining == old(actionsRemaining) - 1
    {
      actionsRemaining := actionsRemaining - 1;
    }

    /** Restores the whole allotment; calling it twice is the same as once. */
    method ResetActionsRemaining()
      modifies this`actionsRemaining
      ensures actionsRemaining == actions
    {
      actionsRemaining := actions;
    }

    /** Subtracts the damage with no floor: health may reach zero or below. */
    method TakeDamage(incomingDamage: int)
      modifies this`health
      ensures health == old(health) - incomingDamage
    {
      health := health - incomingDamage;
    }

    /** A unit is dead once its health is below 1: zero counts as dead, and
        any positive health, however small, as alive. */
    function IsDead(): (dead: bool)
      reads this`health
      ensures dead <==> health <= 0
    {
      health < 1
    }
  }
}
