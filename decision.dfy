/**
 * The agent decision policy (`Agent::decide` in agent/decision.rs): a fixed
 * four-rule priority cascade, first match wins.
 *   1. critical survival: health below 25 and cover more than 1.0 away: move to it;
 *   2. self-preservation: under fire and cover more than 1.0 away: move to it;
 *   3. engagement: attack the first visible enemy;
 *   4. otherwise idle.
 * A critical agent without usable cover falls through to rules 2-4.
 */
module Decision {
  import opened Options
  import opened Geometry
  import opened Entities

  const CriticalHealth: real := 25.0

  /** `distance(p, c) > 1.0`, stated on squares (see Geometry.FartherThanOneBySquares). */
  predicate FarFrom(p: Vec2, c: Vec2) {
    DistSq(p, c) > 1.0
  }

  /** The perception names a cover position and the agent is not already there. */
  predicate CoverWorthTaking(agent: Agent, perception: PerceptionData) {
    perception.nearestCover.Some? && FarFrom(agent.position, perception.nearestCover.value)
  }

  /** Either of the two cover-seeking rules fires. */
  predicate SeeksCover(agent: Agent, perception: PerceptionData) {
    CoverWorthTaking(agent, perception) && (agent.health < CriticalHealth || perception.isUnderFire)
  }

  function Decide(agent: Agent, perception: PerceptionData): (r: AgentAction)
    // a move is chosen exactly when one of the cover rules fires, and only towards that cover
    ensures r.MoveTo? <==> SeeksCover(agent, perception)
    ensures r.MoveTo? ==> perception.nearestCover == Some(r.target) && FarFrom(agent.position, r.target)
    // otherwise the first visible enemy is attacked, if there is one
    ensures r.Attack? <==> !SeeksCover(agent, perception) && |perception.visibleEnemies| > 0
    ensures r.Attack? ==> r.targetId == perception.visibleEnemies[0] && r.targetId in perception.visibleEnemies
    // and the agent idles when no rule fires
    ensures r.Idle? <==> !SeeksCover(agent, perception) && perception.visibleEnemies == []
  {
    // PRIORITY 1: critical survival
    if agent.health < CriticalHealth && perception.nearestCover.Some?
       && FarFrom(agent.position, perception.nearestCover.value) then
      MoveTo(perception.nearestCover.value)
    // PRIORITY 2: self-preservation
    else if perception.isUnderFire && perception.nearestCover.Some?
       && FarFrom(agent.position, perception.nearestCover.value) then
      MoveTo(perception.nearestCover.value)
    // PRIORITY 3: engagement
    else if |perception.visibleEnemies| > 0 then
      Attack(perception.visibleEnemies[0])
    // PRIORITY 4: hold position
    else
      AgentAction.Idle
  }

  /**
   * A critical agent with no cover, or within 1.0 of it, does not idle by
   * default: its decision is what an uninjured agent would decide.
   */
  lemma CriticalWithoutCoverFallsThrough(agent: Agent, perception: PerceptionData)
    requires agent.health < CriticalHealth && !CoverWorthTaking(agent, perception)
    ensures Decide(agent, perception) == Decide(agent.(health := CriticalHealth), perception)
    ensures |perception.visibleEnemies| > 0 ==> Decide(agent, perception) == Attack(perception.visibleEnemies[0])
  {
  }

  /** The decision depends only on position, health and the perception. */
  lemma DecideReadsOnlyOwnState(a: Agent, b: Agent, perception: PerceptionData)
    requires a.position == b.position && a.health == b.health
    ensures Decide(a, perception) == Decide(b, perception)
  {
  }

  /** With nothing perceived (no enemies, no cover, not under fire) every agent idles. */
  lemma BlankPerceptionIdles(agent: Agent)
    ensures Decide(agent, PerceptionData([], None, false)) == AgentAction.Idle
  {
  }

  /** The policy's distance test agrees with the source's `distance(..) > 1.0` for any square root. */
  lemma FarFromMatchesDistance(p: Vec2, c: Vec2, d: real)
    requires IsSqrt(d, DistSq(p, c))
    ensures FarFrom(p, c) <==> d > 1.0
  {
    FartherThanOneBySquares(d, p, c);
  }
}
