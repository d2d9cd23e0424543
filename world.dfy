/**
 * The tick pipeline of the tactical simulator (`World` in simulation/world.rs).
 *
 * A world owns an ordered roster of agents and a tick counter. One tick
 * gathers a perception per agent, asks every living agent for one action,
 * applies the actions one at a time in queue order (looking agents up by id,
 * unknown ids silently absorbed), runs the passive-stats step (empty in the
 * source) and increments the counter.
 *
 * The pure functions below are the specification of each phase; the methods
 * of class `World` are the imperative phases, each proved to agree with its
 * specification, and the lemmas state what the phases promise.
 */
module WorldSim {
  import opened Options
  import opened Geometry
  import opened Entities
  import opened Decision

  /** `SimulationConfig`; the seed is reserved for stochastic combat, which is not wired. */
  datatype SimulationConfig = SimulationConfig(rngSeed: nat, tickRate: real)

  /** One queued intent: the acting agent's id and its action. */
  type Intent = (nat, AgentAction)

  /** The perception every agent currently receives: nothing seen, no cover, not under fire. */
  const Blank := PerceptionData([], None, false)

  // ---------------------------------------------------------------------------
  // Specification of the phases
  // ---------------------------------------------------------------------------

  /** The ids present in a roster. */
  function Ids(agents: seq<Agent>): set<nat> {
    set j | 0 <= j < |agents| :: agents[j].id
  }

  /** `iter().find(|a| a.id == id)`: the position of the first agent carrying `id`. */
  function FindAgent(agents: seq<Agent>, id: nat): (r: Option<nat>)
    ensures r.Some? ==> r.value < |agents| && agents[r.value].id == id
    ensures r.Some? ==> forall j :: 0 <= j < r.value ==> agents[j].id != id
    ensures r.None? <==> id !in Ids(agents)
    decreases |agents|
  {
    if |agents| == 0 then None
    else if agents[0].id == id then Some(0)
    else
      match FindAgent(agents[1..], id)
      case None =>
        assert forall j :: 1 <= j < |agents| ==> agents[j] == agents[1..][j - 1];
        None
      case Some(i) => Some(i + 1)
  }

  /** Phase 1: one blank perception per id in the roster, dead agents included. */
  function Perceptions(agents: seq<Agent>): map<nat, PerceptionData> {
    map id | id in Ids(agents) :: Blank
  }

  /** Every living agent's id has a perception (otherwise the source's `unwrap` panics). */
  predicate PerceivesLiving(agents: seq<Agent>, perceptions: map<nat, PerceptionData>) {
    forall j :: 0 <= j < |agents| && Alive(agents[j]) ==> agents[j].id in perceptions
  }

  /** The living agents, in roster order. */
  function Living(agents: seq<Agent>): (r: seq<Agent>)
    ensures |r| <= |agents|
    ensures forall k :: 0 <= k < |r| ==> Alive(r[k]) && r[k] in agents
    ensures forall j :: 0 <= j < |agents| && Alive(agents[j]) ==> agents[j] in r
    decreases |agents|
  {
    if |agents| == 0 then []
    else
      var init := agents[..|agents| - 1];
      var last := agents[|agents| - 1];
      assert forall j :: 0 <= j < |agents| - 1 ==> agents[j] == init[j];
      if Alive(last) then Living(init) + [last] else Living(init)
  }

  /** Phase 2: the queue of intents, one per living agent in roster order. */
  function Decisions(agents: seq<Agent>, perceptions: map<nat, PerceptionData>): seq<Intent>
    requires PerceivesLiving(agents, perceptions)
    decreases |agents|
  {
    if |agents| == 0 then []
    else
      var init := agents[..|agents| - 1];
      var last := agents[|agents| - 1];
      assert PerceivesLiving(init, perceptions) by {
        assert forall j :: 0 <= j < |init| ==> init[j] == agents[j];
      }
      if !Alive(last) then Decisions(init, perceptions)
      else Decisions(init, perceptions) + [(last.id, Decide(last, perceptions[last.id]))]
  }

  /** `move_agent`: teleport the first agent carrying `id`; an unknown id changes nothing. */
  function Moved(agents: seq<Agent>, id: nat, target: Vec2): (r: seq<Agent>)
    ensures |r| == |agents|
    ensures forall j :: 0 <= j < |agents| && agents[j].id != id ==> r[j] == agents[j]
    ensures id !in Ids(agents) ==> r == agents
    ensures id in Ids(agents) ==>
      (exists i :: 0 <= i < |agents| && agents[i].id == id &&
        (forall j :: 0 <= j < i ==> agents[j].id != id) &&
        r == agents[i := agents[i].(position := target)])
  {
    match FindAgent(agents, id)
    case None => agents
    case Some(i) => agents[i := agents[i].(position := target)]
  }

  /**
   * `resolve_combat`: when both the attacker and the target are found, the
   * target loses exactly the attacker's weapon damage, without clamping.
   * The attacker's own health is not examined.
   */
  function AfterCombat(agents: seq<Agent>, attackerId: nat, targetId: nat): (r: seq<Agent>)
    ensures |r| == |agents|
    ensures forall j :: 0 <= j < |agents| && agents[j].id != targetId ==> r[j] == agents[j]
    ensures attackerId !in Ids(agents) || targetId !in Ids(agents) ==> r == agents
    ensures attackerId in Ids(agents) && targetId in Ids(agents) ==>
      var a, t := FindAgent(agents, attackerId).value, FindAgent(agents, targetId).value;
      r == agents[t := agents[t].(health := agents[t].health - agents[a].weapon.damage)]
  {
    match FindAgent(agents, attackerId)
    case None => agents
    case Some(a) =>
      var damage := agents[a].weapon.damage;
      match FindAgent(agents, targetId)
      case None => agents
      case Some(t) => agents[t := agents[t].(health := agents[t].health - damage)]
  }

  /** Apply one intent. */
  function AfterIntent(agents: seq<Agent>, intent: Intent): seq<Agent> {
    match intent.1
    case MoveTo(pos) => Moved(agents, intent.0, pos)
    case Attack(targetId) => AfterCombat(agents, intent.0, targetId)
    case Idle => agents
  }

  /** Phase 3: apply the intents one at a time, in queue order. */
  function AfterIntents(agents: seq<Agent>, intents: seq<Intent>): (r: seq<Agent>)
    ensures |r| == |agents|
    ensures forall j :: 0 <= j < |agents| ==> r[j].id == agents[j].id
    decreases |intents|
  {
    if |intents| == 0 then agents
    else AfterIntent(AfterIntents(agents, intents[..|intents| - 1]), intents[|intents| - 1])
  }

  /** The roster after one complete tick. */
  function NextRoster(agents: seq<Agent>): seq<Agent> {
    AfterIntents(agents, Decisions(agents, Perceptions(agents)))
  }

  // ---------------------------------------------------------------------------
  // What the phases promise
  // ---------------------------------------------------------------------------

  /** Perception is total: exactly one entry per id, dead agents included, all blank. */
  lemma PerceptionsTotal(agents: seq<Agent>)
    ensures Perceptions(agents).Keys == Ids(agents)
    ensures forall j :: 0 <= j < |agents| ==> Perceptions(agents)[agents[j].id] == Blank
    ensures PerceivesLiving(agents, Perceptions(agents))
  {
  }

  /**
   * The decision queue holds exactly one intent per living agent, in roster
   * order, each the agent's own decision on its own perception; dead agents
   * never decide.
   */
  lemma {:induction false} DecisionsFollowLiving(agents: seq<Agent>, perceptions: map<nat, PerceptionData>)
    requires PerceivesLiving(agents, perceptions)
    ensures |Decisions(agents, perceptions)| == |Living(agents)|
    ensures forall k :: 0 <= k < |Living(agents)| ==>
      Living(agents)[k].id in perceptions &&
      Decisions(agents, perceptions)[k] ==
        (Living(agents)[k].id, Decide(Living(agents)[k], perceptions[Living(agents)[k].id]))
    decreases |agents|
  {
    if |agents| > 0 {
      var init := agents[..|agents| - 1];
      assert forall j :: 0 <= j < |init| ==> init[j] == agents[j];
      DecisionsFollowLiving(init, perceptions);
    }
  }

  /** Applying a queue in two pieces is applying it whole: intents take effect strictly in sequence. */
  lemma {:induction false} AfterIntentsAppend(agents: seq<Agent>, first: seq<Intent>, second: seq<Intent>)
    ensures AfterIntents(agents, first + second) == AfterIntents(AfterIntents(agents, first), second)
    decreases |second|
  {
    if |second| == 0 {
      assert first + second == first;
    } else {
      var init := second[..|second| - 1];
      assert (first + second)[..|first + second| - 1] == first + init;
      assert (first + second)[|first + second| - 1] == second[|second| - 1];
      AfterIntentsAppend(agents, first, init);
    }
  }

  /** The head of the queue is applied first, to the unchanged roster. */
  lemma HeadIntentFirst(agents: seq<Agent>, head: Intent, rest: seq<Intent>)
    ensures AfterIntents(agents, [head] + rest) == AfterIntents(AfterIntent(agents, head), rest)
  {
    AfterIntentsAppend(agents, [head], rest);
    assert [head][..0] == [];
  }

  /** A queue of `Idle` intents changes nothing. */
  lemma {:induction false} IdleIntentsChangeNothing(agents: seq<Agent>, intents: seq<Intent>)
    requires forall k :: 0 <= k < |intents| ==> intents[k].1 == AgentAction.Idle
    ensures AfterIntents(agents, intents) == agents
    decreases |intents|
  {
    if |intents| > 0 {
      IdleIntentsChangeNothing(agents, intents[..|intents| - 1]);
    }
  }

  /**
   * With the perceptions the world currently gathers, every living agent
   * idles, so a tick leaves the roster exactly as it was.
   */
  lemma TickLeavesRosterUnchanged(agents: seq<Agent>)
    ensures NextRoster(agents) == agents
  {
    var ps := Perceptions(agents);
    PerceptionsTotal(agents);
    DecisionsFollowLiving(agents, ps);
    var intents := Decisions(agents, ps);
    forall k | 0 <= k < |intents|
      ensures intents[k].1 == AgentAction.Idle
    {
      var a := Living(agents)[k];
      assert a in agents;
      BlankPerceptionIdles(a);
    }
    IdleIntentsChangeNothing(agents, intents);
  }

  // ---------------------------------------------------------------------------
  // The world and its imperative phases
  // ---------------------------------------------------------------------------

  class World {
    var agents: seq<Agent>
    const coverNodes: seq<CoverNode>
    const config: SimulationConfig
    var tick: nat

    /** The world as the scenario loader hands it over. */
    constructor (agents: seq<Agent>, coverNodes: seq<CoverNode>, config: SimulationConfig, tick: nat)
      ensures this.agents == agents && this.coverNodes == coverNodes
      ensures this.config == config && this.tick == tick
    {
      this.agents := agents;
      this.coverNodes := coverNodes;
      this.config := config;
      this.tick := tick;
    }

    /** One tick: perceive, decide, resolve, passive stats, then advance the counter by one. */
    method Tick()
      modifies this
      ensures agents == NextRoster(old(agents))
      ensures tick == old(tick) + 1
      ensures Ids(agents) == Ids(old(agents)) && |agents| == |old(agents)|
    {
      var perceptions := GatherPerceptions();
      var actions := CalculateDecisions(perceptions);
      ResolveActions(actions);
      UpdatePassiveStats();
      tick := tick + 1;
      assert forall j :: 0 <= j < |agents| ==> agents[j].id == old(agents)[j].id;
    }

    /** Phase 1, read-only: one blank perception for every agent id. */
    method GatherPerceptions() returns (perceptions: map<nat, PerceptionData>)
      ensures perceptions.Keys == Ids(agents)
      ensures forall id :: id in perceptions ==> perceptions[id] == Blank
      ensures perceptions == Perceptions(agents)
    {
      perceptions := map[];
      var i := 0;
      while i < |agents|
        invariant 0 <= i <= |agents|
        invariant perceptions.Keys == Ids(agents[..i])
        invariant forall id :: id in perceptions ==> perceptions[id] == Blank
      {
        assert agents[..i + 1] == agents[..i] + [agents[i]];
        perceptions := perceptions[agents[i].id := Blank];
        i := i + 1;
      }
      assert agents[..i] == agents;
    }

    /** Phase 2, read-only: ask each living agent, in roster order, for its action. */
    method CalculateDecisions(perceptions: map<nat, PerceptionData>) returns (queue: seq<Intent>)
      requires PerceivesLiving(agents, perceptions)
      ensures queue == Decisions(agents, perceptions)
    {
      queue := [];
      var i := 0;
      while i < |agents|
        invariant 0 <= i <= |agents|
        invariant PerceivesLiving(agents[..i], perceptions)
        invariant queue == Decisions(agents[..i], perceptions)
      {
        var agent := agents[i];
        assert agents[..i + 1][..i] == agents[..i];
        if agent.health <= 0.0 {
          i := i + 1;
          continue;
        }
        var perception := perceptions[agent.id];
        var action := Decide(agent, perception);
        queue := queue + [(agent.id, action)];
        i := i + 1;
      }
      assert agents[..i] == agents;
    }

    /** Phase 3: apply the intents one at a time, in queue order. */
    method ResolveActions(actions: seq<Intent>)
      modifies this
      ensures agents == AfterIntents(old(agents), actions)
      ensures tick == old(tick)
    {
      var i := 0;
      while i < |actions|
        invariant 0 <= i <= |actions|
        invariant agents == AfterIntents(old(agents), actions[..i])
        invariant tick == old(tick)
      {
        assert actions[..i + 1][..i] == actions[..i];
        var (agentId, action) := actions[i];
        match action {
          case MoveTo(pos) => MoveAgent(agentId, pos);
          case Attack(targetId) => ResolveCombat(agentId, targetId);
          case Idle =>
        }
        i := i + 1;
      }
      assert actions[..i] == actions;
    }

    /** Linear search by id, O(n): the position of the first agent carrying `id`. */
    method FindIndex(id: nat) returns (r: Option<nat>)
      ensures r == FindAgent(agents, id)
    {
      var i := 0;
      while i < |agents|
        invariant 0 <= i <= |agents|
        invariant forall j :: 0 <= j < i ==> agents[j].id != id
      {
        if agents[i].id == id {
          return Some(i);
        }
        i := i + 1;
      }
      return None;
    }

    /** Teleport the first agent carrying `agentId` to `target`. */
    method MoveAgent(agentId: nat, target: Vec2)
      modifies this
      ensures agents == Moved(old(agents), agentId, target)
      ensures tick == old(tick)
    {
      var found := FindIndex(agentId);
      if found.Some? {
        var i := found.value;
        agents := agents[i := agents[i].(position := target)];
      }
    }

    /** The attacker's weapon damage is subtracted from the target's health. */
    method ResolveCombat(attackerId: nat, targetId: nat)
      modifies this
      ensures agents == AfterCombat(old(agents), attackerId, targetId)
      ensures tick == old(tick)
    {
      var attacker := FindIndex(attackerId);
      if attacker.None? {
        return;
      }
      var damage := agents[attacker.value].weapon.damage;
      var target := FindIndex(targetId);
      if target.Some? {
        var t := target.value;
        agents := agents[t := agents[t].(health := agents[t].health - damage)];
      }
    }

    /** The passive-stats step has no effect yet. */
    method UpdatePassiveStats()
      modifies this
      ensures agents == old(agents) && tick == old(tick)
    {
    }
  }
}
