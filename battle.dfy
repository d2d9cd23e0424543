/**
 * The battle-over test and the stopping rule of the simulation loop
 * (`is_battle_over` and `main` in main.rs). A battle is over when fewer than
 * two teams still have a living member; the loop runs a tick, then stops as
 * soon as the test holds.
 */
module Battle {
  import opened Entities
  import opened WorldSim

  /** The teams that still have at least one living agent. */
  function LivingTeams(agents: seq<Agent>): set<nat> {
    set j | 0 <= j < |agents| && Alive(agents[j]) :: agents[j].team
  }

  predicate BattleOver(agents: seq<Agent>) {
    |LivingTeams(agents)| < 2
  }

  predicate NoDuplicates(s: seq<nat>) {
    forall i, j :: 0 <= i < j < |s| ==> s[i] != s[j]
  }

  function Elements(s: seq<nat>): set<nat> {
    set x | x in s
  }

  /** A sequence without duplicates has as many elements as its set. */
  lemma {:induction false} DistinctCardinality(s: seq<nat>)
    requires NoDuplicates(s)
    ensures |Elements(s)| == |s|
    decreases |s|
  {
    if |s| > 0 {
      var init := s[..|s| - 1];
      var last := s[|s| - 1];
      assert s == init + [last];
      assert NoDuplicates(init);
      DistinctCardinality(init);
      assert forall i :: 0 <= i < |init| ==> init[i] != last;
      assert last !in init;
      assert Elements(s) == Elements(init) + {last};
    }
  }

  /**
   * `is_battle_over`: collect each living agent's team once (the `contains`
   * guard keeps the list free of duplicates) and compare the count with 2.
   */
  method IsBattleOver(world: World) returns (over: bool)
    ensures over <==> |LivingTeams(world.agents)| < 2
  {
    var agents := world.agents;
    var activeTeams: seq<nat> := [];
    var i := 0;
    while i < |agents|
      invariant 0 <= i <= |agents|
      invariant NoDuplicates(activeTeams)
      invariant Elements(activeTeams) == LivingTeams(agents[..i])
    {
      var agent := agents[i];
      assert agents[..i + 1] == agents[..i] + [agent];
      LivingTeamsSnoc(agents[..i], agent);
      if agent.health > 0.0 && agent.team !in activeTeams {
        activeTeams := activeTeams + [agent.team];
      }
      i := i + 1;
    }
    assert agents[..i] == agents;
    DistinctCardinality(activeTeams);
    over := |activeTeams| < 2;
  }

  /** Appending an agent adds its team exactly when it is alive. */
  lemma LivingTeamsSnoc(agents: seq<Agent>, a: Agent)
    ensures LivingTeams(agents + [a]) == LivingTeams(agents) + (if Alive(a) then {a.team} else {})
  {
    var s := agents + [a];
    assert forall j :: 0 <= j < |agents| ==> s[j] == agents[j];
    assert s[|agents|] == a;
    forall x | x in LivingTeams(s)
      ensures x in LivingTeams(agents) + (if Alive(a) then {a.team} else {})
    {
      var j :| 0 <= j < |s| && Alive(s[j]) && s[j].team == x;
      if j < |agents| {
        assert agents[j] == s[j];
      }
    }
  }

  /** A dead agent added at the end of the roster contributes no team. */
  lemma DeadAppendedAddsNoTeam(agents: seq<Agent>, dead: Agent)
    requires !Alive(dead)
    ensures LivingTeams(agents + [dead]) == LivingTeams(agents)
  {
    var s := agents + [dead];
    assert forall j :: 0 <= j < |agents| ==> s[j] == agents[j];
  }

  /** A dead agent added at the front of the roster contributes no team. */
  lemma DeadPrependedAddsNoTeam(agents: seq<Agent>, dead: Agent)
    requires !Alive(dead)
    ensures LivingTeams([dead] + agents) == LivingTeams(agents)
  {
    var t := [dead] + agents;
    forall x | x in LivingTeams(t)
      ensures x in LivingTeams(agents)
    {
      var j :| 0 <= j < |t| && Alive(t[j]) && t[j].team == x;
      assert t[j] == agents[j - 1];
    }
    forall x | x in LivingTeams(agents)
      ensures x in LivingTeams(t)
    {
      var j :| 0 <= j < |agents| && Alive(agents[j]) && agents[j].team == x;
      assert t[j + 1] == agents[j];
    }
  }

  /** An empty roster is over, and so is one whose living agents all share one team. */
  lemma OneTeamIsOver(agents: seq<Agent>, team: nat)
    requires forall j :: 0 <= j < |agents| && Alive(agents[j]) ==> agents[j].team == team
    ensures BattleOver(agents)
  {
    assert LivingTeams(agents) <= {team};
    SubsetCardinality(LivingTeams(agents), {team});
  }

  /** Two living agents on different teams keep the battle going. */
  lemma TwoTeamsNotOver(agents: seq<Agent>, i: nat, j: nat)
    requires i < |agents| && j < |agents|
    requires Alive(agents[i]) && Alive(agents[j]) && agents[i].team != agents[j].team
    ensures !BattleOver(agents)
  {
    var pair := {agents[i].team, agents[j].team};
    assert pair <= LivingTeams(agents);
    SubsetCardinality(pair, LivingTeams(agents));
  }

  lemma SubsetCardinality(a: set<nat>, b: set<nat>)
    requires a <= b
    ensures |a| <= |b|
  {
    assert b == a + (b - a);
  }

  /** The roster after `k` ticks. */
  function AfterTicks(agents: seq<Agent>, k: nat): seq<Agent>
    decreases k
  {
    if k == 0 then agents else NextRoster(AfterTicks(agents, k - 1))
  }

  /**
   * The simulation loop: tick, then stop at the first tick after which the
   * battle is over. The source loops without bound; the model stops after
   * `maxTicks` ticks if the battle is still going.
   */
  method RunBattle(world: World, maxTicks: nat) returns (ticksRun: nat)
    modifies world
    ensures ticksRun <= maxTicks
    ensures world.agents == AfterTicks(old(world.agents), ticksRun)
    ensures world.tick == old(world.tick) + ticksRun
    ensures forall k :: 1 <= k < ticksRun ==> !BattleOver(AfterTicks(old(world.agents), k))
    ensures ticksRun < maxTicks ==> ticksRun >= 1 && BattleOver(world.agents)
    ensures BattleOver(old(world.agents)) && maxTicks > 0 ==> ticksRun == 1
    ensures !BattleOver(old(world.agents)) ==> ticksRun == maxTicks
  {
    ticksRun := 0;
    ghost var start := world.agents;
    while ticksRun < maxTicks
      invariant ticksRun <= maxTicks
      invariant world.agents == AfterTicks(start, ticksRun)
      invariant world.tick == old(world.tick) + ticksRun
      invariant ticksRun >= 1 ==> !BattleOver(start)
    {
      world.Tick();
      ticksRun := ticksRun + 1;
      BattleOverFrozen(start, ticksRun);
      var over := IsBattleOver(world);
      if over {
        return;
      }
    }
    if ticksRun >= 1 {
      NeverOver(start);
    }
  }

  /** Because every agent currently idles, no tick changes the roster. */
  lemma {:induction false} RosterFrozen(agents: seq<Agent>, k: nat)
    ensures AfterTicks(agents, k) == agents
    decreases k
  {
    if k > 0 {
      RosterFrozen(agents, k - 1);
      TickLeavesRosterUnchanged(agents);
    }
  }

  /**
   * Whether the battle is over never changes from tick to tick, so the loop
   * stops after its first tick exactly when the battle was already over
   * before it, and otherwise never stops.
   */
  lemma BattleOverFrozen(agents: seq<Agent>, k: nat)
    ensures BattleOver(AfterTicks(agents, k)) == BattleOver(agents)
  {
    RosterFrozen(agents, k);
  }

  /** A battle that is not over is not over after any number of ticks. */
  lemma NeverOver(agents: seq<Agent>)
    requires !BattleOver(agents)
    ensures forall k: nat :: !BattleOver(AfterTicks(agents, k))
  {
    forall k: nat
      ensures !BattleOver(AfterTicks(agents, k))
    {
      BattleOverFrozen(agents, k);
    }
  }
}
