/**
 * The structure-of-arrays entity store of the crowd simulation (`EntityHot`
 * in Simulation.hpp): fourteen parallel vectors, one slot per entity, and a
 * count. Floats are reals; `uint8_t` health is a natural below 256.
 */
module EntityStore {
  import opened Geometry

  datatype AgentType = Civilian | Zombie | Hero

  datatype AgentState = Idle | Patrol | Fleeing | Pursuing | Searching

  /** Below this speed an entity faces the default direction. */
  const MinSpeed: real := 0.01

  /** A hero's starting health: the number of kills it has left. */
  const HeroHealth: nat := 5

  /** Bounds handed to the random source for a patrol target. */
  const PatrolMinX: int := 50
  const PatrolMaxX: int := 1850
  const PatrolMinY: int := 50
  const PatrolMaxY: int := 1030

  /** One entity, read across the parallel vectors. */
  datatype Entity = Entity(
    pos: Vec2,
    vel: Vec2,
    dir: Vec2,
    agentType: AgentType,
    state: AgentState,
    health: nat,
    lastSeen: Vec2,
    searchTimer: real,
    patrolTarget: Vec2)

  /**
   * The facing of a new entity: its velocity divided by its speed when the
   * speed exceeds 0.01, else facing right. `speed` is the square root the
   * source computes.
   */
  function InitialDirection(vel: Vec2, speed: real): (d: Vec2)
    requires IsSqrt(speed, LengthSq(vel))
    ensures speed > MinSpeed ==> LengthSq(d) == 1.0 && Scale(d, speed) == vel
    ensures speed <= MinSpeed ==> d == Vec2(1.0, 0.0)
  {
    if speed > MinSpeed then Normalized(vel, speed) else Vec2(1.0, 0.0)
  }

  /** The facing `spawn` computes, component by component. */
  method FacingOf(vx: real, vy: real, speed: real) returns (dx: real, dy: real)
    requires IsSqrt(speed, vx * vx + vy * vy)
    ensures Vec2(dx, dy) == InitialDirection(Vec2(vx, vy), speed)
  {
    dx, dy := 1.0, 0.0;
    if speed > MinSpeed {
      dx, dy := vx / speed, vy / speed;
    }
  }

  /** A new entity as `spawn` lays it out, given the two values drawn from the random source. */
  function Spawned(pos: Vec2, vel: Vec2, agentType: AgentType, speed: real, randX: int, randY: int): (e: Entity)
    requires IsSqrt(speed, LengthSq(vel))
  {
    Entity(pos, vel, InitialDirection(vel, speed), agentType, Patrol,
      if agentType == Hero then HeroHealth else 0,
      Origin, 0.0, Vec2(randX as real, randY as real))
  }

  /**
   * A spawned entity patrols, remembers nothing yet, has 5 health exactly
   * when it is a hero (0 otherwise), and heads for a patrol target inside
   * [50, 1850] x [50, 1030] when the random source honours its bounds.
   */
  lemma SpawnedEntityFacts(pos: Vec2, vel: Vec2, agentType: AgentType, speed: real, randX: int, randY: int)
    requires IsSqrt(speed, LengthSq(vel))
    requires PatrolMinX <= randX <= PatrolMaxX && PatrolMinY <= randY <= PatrolMaxY
    ensures var e := Spawned(pos, vel, agentType, speed, randX, randY);
      e.state == Patrol && e.lastSeen == Origin && e.searchTimer == 0.0 &&
      (e.health == 5 <==> agentType == Hero) && (agentType != Hero ==> e.health == 0) &&
      e.pos == pos && e.vel == vel &&
      50.0 <= e.patrolTarget.x <= 1850.0 && 50.0 <= e.patrolTarget.y <= 1030.0
  {
  }

  class EntityHot {
    var posX: seq<real>
    var posY: seq<real>
    var velX: seq<real>
    var velY: seq<real>
    var dirX: seq<real>
    var dirY: seq<real>
    var agentType: seq<AgentType>
    var state: seq<AgentState>
    var health: seq<nat>
    var lastSeenX: seq<real>
    var lastSeenY: seq<real>
    var searchTimer: seq<real>
    var patrolTargetX: seq<real>
    var patrolTargetY: seq<real>
    var count: nat

    /** The structure-of-arrays invariant: every vector holds exactly `count` slots. */
    ghost predicate Valid()
      reads this
    {
      |posX| == count && |posY| == count && |velX| == count && |velY| == count &&
      |dirX| == count && |dirY| == count && |agentType| == count && |state| == count &&
      |health| == count && |lastSeenX| == count && |lastSeenY| == count &&
      |searchTimer| == count && |patrolTargetX| == count && |patrolTargetY| == count
    }

    /** Entity `i`, gathered from slot `i` of every vector. */
    ghost function At(i: nat): Entity
      requires Valid() && i < count
      reads this
    {
      Entity(Vec2(posX[i], posY[i]), Vec2(velX[i], velY[i]), Vec2(dirX[i], dirY[i]),
        agentType[i], state[i], health[i], Vec2(lastSeenX[i], lastSeenY[i]), searchTimer[i],
        Vec2(patrolTargetX[i], patrolTargetY[i]))
    }

    constructor()
      ensures Valid() && count == 0
    {
      posX, posY, velX, velY, dirX, dirY := [], [], [], [], [], [];
      agentType, state, health := [], [], [];
      lastSeenX, lastSeenY, searchTimer, patrolTargetX, patrolTargetY := [], [], [], [], [];
      count := 0;
    }

    /**
     * `reserve` only sets capacities, which the model does not track: the
     * vectors and the count are left as they are.
     */
    method Reserve(n: nat)
      ensures count == old(count) && Valid() == old(Valid())
    {
    }

    /** The movement half of a `spawn`: one slot on each position, velocity and facing vector. */
    method PushMotion(px: real, py: real, vx: real, vy: real, dx: real, dy: real)
      modifies this
      ensures posX == old(posX) + [px] && posY == old(posY) + [py]
      ensures velX == old(velX) + [vx] && velY == old(velY) + [vy]
      ensures dirX == old(dirX) + [dx] && dirY == old(dirY) + [dy]
      ensures agentType == old(agentType) && state == old(state) && health == old(health)
      ensures lastSeenX == old(lastSeenX) && lastSeenY == old(lastSeenY) && searchTimer == old(searchTimer)
      ensures patrolTargetX == old(patrolTargetX) && patrolTargetY == old(patrolTargetY) && count == old(count)
    {
      posX, posY, velX, velY, dirX, dirY :=
        posX + [px], posY + [py], velX + [vx], velY + [vy], dirX + [dx], dirY + [dy];
    }

    /** The behaviour part of a `spawn`: type, state and health. */
    method PushBehaviour(newType: AgentType, hp: nat)
      modifies this
      ensures agentType == old(agentType) + [newType] && state == old(state) + [Patrol]
      ensures health == old(health) + [hp]
      ensures lastSeenX == old(lastSeenX) && lastSeenY == old(lastSeenY) && searchTimer == old(searchTimer)
      ensures patrolTargetX == old(patrolTargetX) && patrolTargetY == old(patrolTargetY)
      ensures posX == old(posX) && posY == old(posY) && velX == old(velX) && velY == old(velY)
      ensures dirX == old(dirX) && dirY == old(dirY) && count == old(count)
    {
      agentType, state, health := agentType + [newType], state + [Patrol], health + [hp];
    }

    /** The memory part of a `spawn`: no last sighting, no search timer, a patrol target. */
    method PushMemory(tx: real, ty: real)
      modifies this
      ensures lastSeenX == old(lastSeenX) + [0.0] && lastSeenY == old(lastSeenY) + [0.0]
      ensures searchTimer == old(searchTimer) + [0.0]
      ensures patrolTargetX == old(patrolTargetX) + [tx] && patrolTargetY == old(patrolTargetY) + [ty]
      ensures agentType == old(agentType) && state == old(state) && health == old(health)
      ensures posX == old(posX) && posY == old(posY) && velX == old(velX) && velY == old(velY)
      ensures dirX == old(dirX) && dirY == old(dirY) && count == old(count)
    {
      lastSeenX, lastSeenY, searchTimer := lastSeenX + [0.0], lastSeenY + [0.0], searchTimer + [0.0];
      patrolTargetX, patrolTargetY := patrolTargetX + [tx], patrolTargetY + [ty];
    }

    /**
     * Push one slot onto every vector and bump the count. `speed` is the
     * square root of the squared velocity; `randX` and `randY` are the values
     * the random source returned for the patrol target.
     */
    method Spawn(px: real, py: real, vx: real, vy: real, newType: AgentType, speed: real, randX: int, randY: int)
      requires IsSqrt(speed, vx * vx + vy * vy)
      modifies this
      ensures count == old(count) + 1
      ensures posX == old(posX) + [px] && posY == old(posY) + [py]
      ensures velX == old(velX) + [vx] && velY == old(velY) + [vy]
      ensures dirX == old(dirX) + [InitialDirection(Vec2(vx, vy), speed).x]
      ensures dirY == old(dirY) + [InitialDirection(Vec2(vx, vy), speed).y]
      ensures agentType == old(agentType) + [newType] && state == old(state) + [Patrol]
      ensures health == old(health) + [if newType == Hero then HeroHealth else 0]
      ensures lastSeenX == old(lastSeenX) + [0.0] && lastSeenY == old(lastSeenY) + [0.0]
      ensures searchTimer == old(searchTimer) + [0.0]
      ensures patrolTargetX == old(patrolTargetX) + [randX as real]
      ensures patrolTargetY == old(patrolTargetY) + [randY as real]
      ensures old(Valid()) ==> Valid()
      ensures old(Valid()) ==> At(count - 1) == Spawned(Vec2(px, py), Vec2(vx, vy), newType, speed, randX, randY)
      ensures old(Valid()) ==> forall i :: 0 <= i < old(count) ==> At(i) == old(At(i))
    {
      var dx, dy := FacingOf(vx, vy, speed);
      PushMotion(px, py, vx, vy, dx, dy);
      PushBehaviour(newType, if newType == Hero then HeroHealth else 0);
      PushMemory(randX as real, randY as real);
      count := count + 1;
    }
  }
}
