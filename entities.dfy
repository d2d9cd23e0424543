/**
 * The nouns of the tactical simulator: agents, their weapons, cover nodes,
 * and the per-tick perception and action values exchanged between the world
 * and the decision policy. Identifiers (`u32`) and teams (`u8`) are naturals;
 * `f32` quantities are reals.
 */
module Entities {
  import opened Options
  import opened Geometry

  /** `WeaponStats`: accuracy is documented to lie in [0, 1]. */
  datatype WeaponStats = WeaponStats(range: real, accuracy: real, damage: real, fireRate: real)

  /** `CoverNode`: protection is documented to lie in [0, 1]. */
  datatype CoverNode = CoverNode(id: nat, position: Vec2, protection: real)

  /** The behavioural state an agent is loaded with and reported in. */
  datatype AgentState =
    | Idle
    | Moving(destination: Vec2)
    | Attacking(attackTarget: nat)
    | Suppressing(suppressTarget: nat)
    | Downed
    | Dead

  datatype Agent = Agent(
    id: nat,
    team: nat,
    position: Vec2,
    health: real,
    morale: real,
    weapon: WeaponStats,
    state: AgentState)

  /** What one agent knows in one tick. */
  datatype PerceptionData = PerceptionData(
    visibleEnemies: seq<nat>,
    nearestCover: Option<Vec2>,
    isUnderFire: bool)

  /** What one agent intends to do in one tick. */
  datatype AgentAction =
    | MoveTo(target: Vec2)
    | Attack(targetId: nat)
    | Idle

  /** An agent is alive while its health is strictly positive. */
  predicate Alive(a: Agent) {
    a.health > 0.0
  }
}
