# tactix, modelled in Dafny

This project models the logic at the core of the tactix repository. That
repository holds three unrelated code bases.

- **The tactical simulator (`tactix-ai`, Rust).** A `World` holds a roster of
  agents and a tick counter. Each tick gathers one perception per agent. It
  then asks every living agent for one action through a four-rule policy:
  critical survival, self-preservation, engagement, idle. Next it applies the
  actions in queue order, looking each agent up by id, and runs the
  passive-stats step. Last it increments the counter. The main loop ticks
  until fewer than two teams have a living member. `Vec2` supplies the
  vector arithmetic.
- **The crowd demo (C++).** It has three parts:
  - a spatial hash grid of entity-id buckets, with clamped cell hashing,
    insert, clear, a 3x3 neighbour query and a maximum-occupancy count;
  - the structure-of-arrays entity store `EntityHot`, with `spawn` and
    `reserve`;
  - the wrap-around movement step of `Simulation`, plus its debug-grid toggle.
- **The Unreal game code (C++).** It has two parts:
  - the ammunition and state machine of `AWeaponBase`;
  - the inventory of `UWeaponComponent`, which handles equipping by slot,
    equipping by class, and unequipping.

Modules and files:

| file | module | models |
|---|---|---|
| `options.dfy` | `Options` | an `Option` datatype |
| `geometry.dfy` | `Geometry` | `Vec2` of `utls/math.rs` |
| `entities.dfy` | `Entities` | agents, weapons, cover, perception and action values |
| `decision.dfy` | `Decision` | `Agent::decide` |
| `world.dfy` | `WorldSim` | `World::tick` and its phases |
| `battle.dfy` | `Battle` | `is_battle_over` and the stopping rule of `main` |
| `spatial_cells.dfy` | `SpatialCells` | the cell arithmetic of `SpatialHash.hpp` |
| `spatial_grid.dfy` | `SpatialGrid` | the `SpatialHash` class of `SpatialHash.cpp` |
| `entity_store.dfy` | `EntityStore` | `EntityHot` in `Simulation.hpp` |
| `crowd_sim.dfy` | `CrowdSim` | `update`, `updateMovement`, `screenWrap` and `toggleDebugGrid` |
| `weapon.dfy` | `Weapons` | `AWeaponBase` ammunition and state |
| `weapon_inventory.dfy` | `Inventory` | `UWeaponComponent` inventory |

Code that changes state in place is a Dafny `class`, and its methods are
proved against pure specification functions. This covers:

- the world and its phases;
- the spatial hash, over an `array` of buckets;
- the entity store;
- the crowd simulation;
- the weapon and the weapon component.

Pure code is functions and lemmas. This covers the decision policy, the
cell arithmetic, `Vec2` and the screen wrap of one position.

A few conventions hold throughout:

- `f32`/`float` values are reals.
- Identifiers, teams and entity ids are naturals.
- The C++ crowd demo (`Simulation.cpp`) adds and scales float pairs in the
  same componentwise way as the Rust `Vec2` (`math.rs`). Both code bases
  therefore share one vector model, `Geometry.Vec2`, with its `Add`, `Sub`,
  `Scale` and `Normalized`. The C++ side uses no Rust code: only the
  arithmetic is shared.
- Square roots are never computed. A distance is compared through its
  square. Where the source divides by a length (`normalized`, the facing in
  `spawn`), the length is a parameter together with the fact that it is the
  non-negative square root.

Three behaviours of the tick are easy to misread from the source's own
comments. The model follows the statements, not the comments:

- **Order of resolution.** The comment at
  `tactix-ai/src/simulation/world.rs:84-86` speaks of separating movement
  from combat and picking one order for the two. The loop at lines 88-98
  has no separate passes: it applies every action once, in queue order.
  `AfterIntentsAppend` and `HeadIntentFirst` state this one-pass order.
- **Dead attackers.** The comment at line 123 asks whether the attacker
  died before shooting. The code at lines 118-125 only checks that an agent
  with the attacker's id exists, and never reads its health. `AfterCombat`
  states this: a dead attacker that is still in the roster still deals its
  damage.
- **Passive stats.** The comment at lines 140-142 names morale, but the
  body of `update_passive_stats` is empty. `World.UpdatePassiveStats`
  leaves the roster and the tick counter unchanged.

## Model

| member | source | states |
|---|---|---|
| Geometry.Sub | tactix-ai/src/utls/math.rs:32-37 | subtraction undoes `+=`: adding `b` back to `a - b` gives `a` (the `Sub` operator at 69-77 has the same body) |
| Geometry.Scale | tactix-ai/src/utls/math.rs:58-67 | multiplying by a scalar `s` multiplies the squared length by `s * s` |
| Geometry.Normalized | tactix-ai/src/utls/math.rs:20-30 | a zero-length vector normalizes to (0, 0); any other vector to one of unit length that scales back to the input by its length |
| Geometry.UnitAfterDivision | tactix-ai/src/utls/math.rs:25-28 | dividing both components by a non-zero length gives squared length exactly 1 |
| Geometry.FartherThanOneBySquares | tactix-ai/src/utls/math.rs:12-14 | for the square root `d` of the squared distance, `d > 1` holds exactly when the squared distance exceeds 1 |
| Geometry.DistanceFacts | tactix-ai/src/utls/math.rs:12-18 | distance is symmetric, zero from a point to itself and non-negative; length is the distance from the origin |
| Geometry.Hadamard | tactix-ai/src/utls/math.rs:47-56 | `Mul<Vec2>` is componentwise, not a dot product: by a vector with equal components it is the scalar `Mul`, by (1, 1) it is the identity, and by or of the zero vector it gives the zero vector |
| Geometry.AddUndoneBySub | tactix-ai/src/utls/math.rs:32-45 | `+=` and `sub` undo each other: subtracting either summand from the sum gives back the other |
| Decision.Decide | tactix-ai/src/agent/decision.rs:3-37 | the agent moves exactly when cover more than 1.0 away exists and it is either below 25 health or under fire, and then only to that cover; otherwise it attacks exactly when an enemy is visible, and the target is the first one; it idles exactly when neither holds |
| Decision.CriticalWithoutCoverFallsThrough | tactix-ai/src/agent/decision.rs:6-14 | a critical agent without usable cover decides what an uninjured one would, so it still attacks a visible enemy |
| Decision.DecideReadsOnlyOwnState | tactix-ai/src/agent/decision.rs:3-37 | the decision depends only on the agent's position, its health and the perception |
| Decision.BlankPerceptionIdles | tactix-ai/src/agent/decision.rs:29-36 | with no enemies, no cover and no incoming fire, every agent idles |
| Decision.FarFromMatchesDistance | tactix-ai/src/agent/decision.rs:9 | the squared-distance test the model uses agrees with `distance(..) > 1.0` |
| WorldSim.FindAgent | tactix-ai/src/simulation/world.rs:104 | the id search returns the first position carrying the id, and returns nothing exactly when no agent carries it |
| WorldSim.Living | tactix-ai/src/simulation/world.rs:67-69 | the living agents are exactly the roster's agents with positive health |
| WorldSim.Moved | tactix-ai/src/simulation/world.rs:103-109 | only the first agent with the id is moved, only its position changes, and an unknown id changes nothing |
| WorldSim.AfterCombat | tactix-ai/src/simulation/world.rs:111-138 | with both ids present, the target loses exactly the attacker's weapon damage, unclamped; a missing attacker or target changes nothing; the attacker's health is not examined; all other agents are untouched |
| WorldSim.AfterIntents | tactix-ai/src/simulation/world.rs:88-98 | resolving actions keeps the roster's length and every agent's id |
| WorldSim.PerceptionsTotal | tactix-ai/src/simulation/world.rs:49-61 | the perception map has exactly one entry per id, dead agents included, and every entry is blank |
| WorldSim.DecisionsFollowLiving | tactix-ai/src/simulation/world.rs:64-80 | the queue has exactly one entry per living agent, in roster order, each that agent's own decision on its own perception; dead agents never act |
| WorldSim.AfterIntentsAppend | tactix-ai/src/simulation/world.rs:88-98 | actions take effect strictly one after another: resolving a queue in two parts is the same as resolving it whole |
| WorldSim.HeadIntentFirst | tactix-ai/src/simulation/world.rs:88-98 | the head of the queue is applied first, to the unchanged roster |
| WorldSim.IdleIntentsChangeNothing | tactix-ai/src/simulation/world.rs:96 | a queue of `Idle` actions leaves the roster unchanged |
| WorldSim.TickLeavesRosterUnchanged | tactix-ai/src/simulation/world.rs:34-46 | with the perceptions the world gathers now, every living agent idles, so a tick leaves the roster as it was |
| WorldSim.World.constructor | tactix-ai/src/simulation/world.rs:10-18 | a world holds exactly the agents, cover nodes, configuration and tick counter it is built from |
| WorldSim.World.Tick | tactix-ai/src/simulation/world.rs:34-46 | the roster becomes the result of perceive, decide and resolve, in that order; the counter goes up by exactly one; the ids and the roster length are kept |
| WorldSim.World.GatherPerceptions | tactix-ai/src/simulation/world.rs:49-61 | the loop builds one blank perception per agent id and changes nothing |
| WorldSim.World.CalculateDecisions | tactix-ai/src/simulation/world.rs:64-80 | the loop builds exactly the queue of the living agents' decisions, in roster order |
| WorldSim.World.ResolveActions | tactix-ai/src/simulation/world.rs:83-99 | the loop applies the queue one action at a time, in order, and leaves the counter alone |
| WorldSim.World.FindIndex | tactix-ai/src/simulation/world.rs:104 | the linear search returns the first position carrying the id, or nothing |
| WorldSim.World.MoveAgent | tactix-ai/src/simulation/world.rs:103-109 | the roster becomes the teleported roster: only the found agent's position changes |
| WorldSim.World.ResolveCombat | tactix-ai/src/simulation/world.rs:111-138 | the roster becomes the one after combat: only the found target's health drops, by the attacker's damage |
| WorldSim.World.UpdatePassiveStats | tactix-ai/src/simulation/world.rs:140-142 | the passive-stats step changes nothing |
| Battle.IsBattleOver | tactix-ai/src/main.rs:43-55 | the loop that collects teams without duplicates answers true exactly when fewer than two teams have a living agent |
| Battle.DistinctCardinality | tactix-ai/src/main.rs:48 | a team list kept free of duplicates by the `contains` guard is as long as the set of its teams |
| Battle.LivingTeamsSnoc | tactix-ai/src/main.rs:47-51 | one more agent adds its team exactly when that agent is alive |
| Battle.DeadAppendedAddsNoTeam | tactix-ai/src/main.rs:48 | a dead agent added at the end of the roster does not change the set of living teams |
| Battle.DeadPrependedAddsNoTeam | tactix-ai/src/main.rs:48 | a dead agent added at the front of the roster does not change the set of living teams |
| Battle.OneTeamIsOver | tactix-ai/src/main.rs:54 | an empty roster, or one whose living agents share a single team, ends the battle |
| Battle.TwoTeamsNotOver | tactix-ai/src/main.rs:54 | two living agents on different teams keep the battle going |
| Battle.RunBattle | tactix-ai/src/main.rs:24-34 | within a budget of at least one tick, the loop ticks at least once and stops at the first tick after which the battle is over, never earlier; the counter advances once per tick; it stops after one tick when the battle was over at the start, and uses the whole budget when it was not |
| Battle.RosterFrozen | tactix-ai/src/main.rs:24-33 | because every agent currently idles, any number of ticks leaves the roster unchanged |
| Battle.BattleOverFrozen | tactix-ai/src/main.rs:24-33 | whether the battle is over is the same after any number of ticks as before the first, so the loop stops after its first tick or never |
| Battle.NeverOver | tactix-ai/src/main.rs:24-33 | a battle that is not over at the start is not over after any number of ticks, so the loop never ends on a live battle |
| SpatialCells.Trunc | src/SpatialHash.hpp:36-37 | the cast truncates toward zero: the result is within one of the input and on the zero side of it |
| SpatialCells.IsValidCell | src/SpatialHash.hpp:46-49 | a cell is valid exactly when `0 <= cellX < gridWidth` and `0 <= cellY < gridHeight` |
| SpatialCells.Clamp | src/SpatialHash.hpp:40-41 | a clamped coordinate lies in `[0, n - 1]`, keeps an in-range value, and sends values below 0 to 0 and values at or above `n` to `n - 1` |
| SpatialCells.ClampedCell | src/SpatialHash.hpp:36-41 | the clamped cell of any position is a valid cell |
| SpatialCells.CellIndexInRange | src/SpatialHash.hpp:43 | the row-major number of a valid cell indexes the `gridWidth * gridHeight` buckets |
| SpatialCells.CellIndexDecodes | src/SpatialHash.hpp:43 | the number of a valid cell gives back its coordinates by `%` and `/` |
| SpatialCells.CellIndexInjective | src/SpatialHash.hpp:43 | distinct valid cells get distinct numbers |
| SpatialCells.ClampFixesExactlyValidCells | src/SpatialHash.hpp:40-49 | clamping leaves a cell unchanged exactly when `isValidCell` holds for it |
| SpatialCells.HashPosition | src/SpatialHash.hpp:35-44 | the hash always indexes the buckets; it is the plain row-major number when the unclamped cell is valid; it decodes to the clamped cell |
| SpatialGrid.Ceil | c++/src/SpatialHash.cpp:10-11 | the rounded-up grid size is the least integer at or above the quotient |
| SpatialGrid.CellAtValid | c++/src/SpatialHash.cpp:43-46 | a cell that passes the validity test has its bucket in range, so the query never indexes outside the storage |
| SpatialGrid.VisitedMembership | c++/src/SpatialHash.cpp:38-52 | an id is in the output after `t` steps exactly when it is in the bucket of one of the first `t` cells visited |
| SpatialGrid.NeighborhoodMembership | c++/src/SpatialHash.cpp:38-52 | the query is complete and sound: an id is returned exactly when it lies in the bucket of a valid cell within one cell of the centre in both directions; the radius plays no part |
| SpatialGrid.QueryFindsNearbyEntity | c++/src/SpatialHash.cpp:23-52 | an id inserted at a position is found by any query whose centre cell is within one cell of that position's clamped cell |
| SpatialGrid.EmptyGridHasNoNeighbors | c++/src/SpatialHash.cpp:16-52 | a query of a cleared grid returns nothing |
| SpatialGrid.QueryFarOutsideGridIsEmpty | c++/src/SpatialHash.cpp:32-43 | the query centre is not clamped, so a centre two or more cells outside the grid finds nothing |
| SpatialGrid.SpatialHash.constructor | c++/src/SpatialHash.cpp:5-14 | the grid has `ceil(world / cellSize)` cells each way, exactly `gridWidth * gridHeight` buckets, all empty |
| SpatialGrid.SpatialHash.CellCount | src/SpatialHash.hpp:18 | `getCellCount` is the number of buckets actually stored |
| SpatialGrid.SpatialHash.Clear | c++/src/SpatialHash.cpp:16-21 | every bucket becomes empty and the bucket count is kept |
| SpatialGrid.SpatialHash.Insert | c++/src/SpatialHash.cpp:23-26 | the id is appended to exactly the hashed bucket and every other bucket is unchanged |
| SpatialGrid.SpatialHash.QueryNeighbors | c++/src/SpatialHash.cpp:28-53 | the nested loops produce exactly the 3x3 neighbourhood of the unclamped centre cell: the valid cells' buckets concatenated in dy-then-dx order, starting from an empty output |
| SpatialGrid.SpatialHash.QueryBlock | c++/src/SpatialHash.cpp:38-52 | starting from an empty output, the outer loop over the three rows yields the whole neighbourhood of the given centre cell |
| SpatialGrid.SpatialHash.QueryRow | c++/src/SpatialHash.cpp:39-51 | one pass of the inner loop extends the buckets of the steps already visited by the buckets of the three cells of the row, left to right |
| SpatialGrid.SpatialHash.AppendCell | c++/src/SpatialHash.cpp:40-50 | an invalid cell is skipped and a valid cell appends exactly its own bucket, found at `cellY * gridWidth + cellX` |
| SpatialGrid.SpatialHash.GetMaxOccupancy | c++/src/SpatialHash.cpp:55-61 | the result is at least every bucket's size and equal to some bucket's size, or 0 when there are no buckets |
| SpatialGrid.SpatialHash.GetCellCoords | c++/src/SpatialHash.cpp:63-70 | the coordinates are a valid cell, the very cell `hashPosition` numbers, and the unclamped cell when that one is valid |
| EntityStore.InitialDirection | src/Simulation.hpp:68-75 | above speed 0.01 the facing is a unit vector that scales back to the velocity by the speed; otherwise it is (1, 0) |
| EntityStore.FacingOf | src/Simulation.hpp:68-75 | the branch `spawn` runs computes exactly that facing |
| EntityStore.SpawnedEntityFacts | src/Simulation.hpp:76-84 | a new entity patrols, has `lastSeen` (0, 0) and search timer 0, has health 5 exactly when it is a hero (0 otherwise), and heads for a patrol target in `[50, 1850] x [50, 1030]` |
| EntityStore.EntityHot.constructor | src/Simulation.hpp:45 | an empty store holds no slots and satisfies the parallel-vector invariant |
| EntityStore.EntityHot.Reserve | src/Simulation.hpp:47-60 | `reserve` changes neither the count nor the invariant |
| EntityStore.EntityHot.PushMotion | src/Simulation.hpp:63-75 | one slot is pushed onto each position, velocity and facing vector, and the other vectors are left alone |
| EntityStore.EntityHot.PushBehaviour | src/Simulation.hpp:76-78 | one slot is pushed onto the type, state and health vectors (a new agent patrols), and every other vector is left alone |
| EntityStore.EntityHot.PushMemory | src/Simulation.hpp:79-84 | one slot is pushed onto the last-sighting, search-timer and patrol-target vectors (no sighting, no timer), and every other vector is left alone |
| EntityStore.EntityHot.Spawn | src/Simulation.hpp:62-86 | every vector grows by exactly one slot and the count by one; if all vectors had length `count` before, they do after; the new slot is the spawned entity; earlier entities are unchanged |
| CrowdSim.WrapCoord | src/Simulation.cpp:38-41 | on a screen of non-negative size a wrapped coordinate is on the screen; an on-screen coordinate is kept; below 0 goes to the far edge; beyond the far edge goes to 0 |
| CrowdSim.Wrap | src/Simulation.cpp:37-42 | a wrapped position lies in `[0, W] x [0, H]`, and an on-screen position is unchanged |
| CrowdSim.WrapIdempotent | src/Simulation.cpp:37-42 | wrapping twice is wrapping once, for any screen size |
| CrowdSim.Moved | src/Simulation.cpp:32-35 | a moved agent is displaced by exactly `vel * dt` and keeps its velocity |
| CrowdSim.Step | src/Simulation.cpp:26-29 | an update step keeps the velocity and puts the agent on the screen; when the move alone stays on the screen, the displacement is exactly `vel * dt` |
| CrowdSim.Simulation.constructor | src/Simulation.cpp:5-6 | a new simulation records the screen size, has no agents and starts with the debug grid off |
| CrowdSim.Simulation.UpdateMovement | src/Simulation.cpp:32-35 | only the chosen agent changes, and it becomes its moved self |
| CrowdSim.Simulation.ScreenWrap | src/Simulation.cpp:37-42 | the four sequential tests put only the chosen agent's position where `Wrap` puts it |
| CrowdSim.Simulation.StepAgent | src/Simulation.cpp:27-28 | one pass of the `update` loop replaces only the chosen agent, by its moved-then-wrapped self |
| CrowdSim.Simulation.Update | src/Simulation.cpp:25-30 | the agent count is kept, every agent ends where one update step puts it, and on a screen of non-negative size every agent ends on the screen |
| CrowdSim.Simulation.ToggleDebugGrid | src/Simulation.hpp:103 | the flag is negated and nothing else changes, so two toggles restore it |
| Weapons.InitialIsSound | Source/Tactix/Weapons/WeaponBase.cpp:32-35 | a new weapon is idle with non-negative ammunition and may reload at once |
| Weapons.RunKeepsSound | Source/Tactix/Weapons/WeaponBase.cpp:173-251 | under any sequence of attacks, reloads and finished reloads, ammunition never goes negative and the weapon is only ever seen Idle or Reloading |
| Weapons.ShotsBoundedByAmmo | Source/Tactix/Weapons/WeaponBase.cpp:173-181 | without a finished reload, every shot fired costs exactly one round, so a weapon fires at most the rounds it holds |
| Weapons.ReloadingBlocks | Source/Tactix/Weapons/WeaponBase.cpp:116-124 | while reloading, attacks and further reloads do nothing and fire nothing, until the reload finishes |
| Weapons.ReloadCycle | Source/Tactix/Weapons/WeaponBase.cpp:218-251 | an allowed reload enters Reloading with the ammunition untouched and blocks attacks; finishing it with data leaves the weapon idle with a full magazine; a refused reload changes nothing |
| Weapons.CanAttack | Source/Tactix/Weapons/WeaponBase.cpp:116-119 | a weapon may attack exactly when it has ammunition left and is Idle |
| Weapons.CanReload | Source/Tactix/Weapons/WeaponBase.cpp:121-124 | a weapon may reload exactly when its ammunition is not negative and it is Idle, so a full magazine may still be reloaded |
| Weapons.AttackStep | Source/Tactix/Weapons/WeaponBase.cpp:173-181 | an attack spends a round exactly when it is allowed, and then leaves the weapon Idle; a refused attack changes nothing; ammunition that was not negative stays not negative |
| Weapons.ReloadStep | Source/Tactix/Weapons/WeaponBase.cpp:231-251 | a reload never touches the ammunition; an allowed one leaves the weapon Reloading, so it can neither attack nor reload again; a refused one changes nothing |
| Weapons.FinishStep | Source/Tactix/Weapons/WeaponBase.cpp:218-229 | a finished reload leaves the weapon Idle with a full magazine (ammunition kept without data), so it may attack when the magazine is not empty and may always reload again when the data is sane |
| Weapons.WeaponBase.constructor | Source/Tactix/Weapons/WeaponBase.cpp:32-35 | ammunition starts at the magazine size, or 30 without data, and the state starts Idle |
| Weapons.WeaponBase.SetWeaponState | Source/Tactix/Weapons/WeaponBase.cpp:296-299 | the state is set and the ammunition is kept |
| Weapons.WeaponBase.ConsumeAmmo | Source/Tactix/Weapons/WeaponBase.cpp:301-305 | exactly one round is spent and the state is kept |
| Weapons.WeaponBase.ExecuteAttack | Source/Tactix/Weapons/WeaponBase.cpp:173-181 | the weapon takes the attack step: when it may attack it spends one round and ends Idle; otherwise nothing changes |
| Weapons.WeaponBase.Reload | Source/Tactix/Weapons/WeaponBase.cpp:231-251 | the weapon takes the reload step; a timer is set exactly when reloading is allowed, for the data's reload time or 2.0 |
| Weapons.WeaponBase.FinishReload | Source/Tactix/Weapons/WeaponBase.cpp:218-229 | ammunition is refilled to the magazine size, or kept without data, and the state returns to Idle |
| Inventory.FirstOfClass | Source/Tactix/Components/WeaponComponent.cpp:131-140 | the search finds the first weapon of the class; it finds nothing exactly when no weapon of that class is held |
| Inventory.WeaponComponent.constructor | Source/Tactix/Components/WeaponComponent.cpp:10-15 | a new component holds no weapons and has none equipped |
| Inventory.WeaponComponent.EquipSlotValidate | Source/Tactix/Components/WeaponComponent.cpp:98-101 | a slot request is valid exactly when the slot indexes the inventory |
| Inventory.WeaponComponent.DetachCurrentWeapon | Source/Tactix/Components/WeaponComponent.cpp:183-193 | afterwards no weapon is equipped and the inventory is unchanged; an empty hand stays empty |
| Inventory.WeaponComponent.UnEquipWeapon | Source/Tactix/Components/WeaponComponent.cpp:157-161 | unequipping leaves no weapon equipped and the inventory unchanged |
| Inventory.WeaponComponent.EquipSlot | Source/Tactix/Components/WeaponComponent.cpp:98-116 | a valid slot holding a weapon makes that weapon current; an invalid or empty slot changes nothing; the inventory never changes; the equipped weapon stays one of the character's own |
| Inventory.WeaponComponent.EquipWeapon | Source/Tactix/Components/WeaponComponent.cpp:128-155 | the first held weapon of the class becomes current, with the inventory unchanged; otherwise a spawned weapon is appended and equipped; a failed spawn changes nothing; the equipped weapon stays one of the character's own |
| Inventory.WeaponComponent.FindOfClass | Source/Tactix/Components/WeaponComponent.cpp:130-140 | the search loop stops at the first inventory weapon of the class, and reports none when no weapon has the class |

## Left out

- Loading and printing: `World::from_scenario`, the scenario loader, `log_tick` and the `println!` calls, and the `thread::sleep` in `main`. `WorldSim.World.constructor` takes the loaded world as parameters.
- Randomness:
  - The accuracy roll in `resolve_combat` is commented out in the source and is not modelled.
  - The values `GetRandomValue` returns in `spawn` are parameters of `Spawn`.
  - `Simulation::init` is not modelled.
- Battle.RunBattle: the source loop has no bound. The model stops after `maxTicks` ticks. Its contract says nothing about what would happen beyond that budget.
- Perception: the source fills every perception with placeholders, and the model keeps those placeholders. The agent's `weapon` field and the `AgentAction` and `PerceptionData` shapes are reconstructed from their uses, because the `agent::agent` module is not part of this model.
- Superseded duplicates: `tactix-ai/src/world/mod.rs` and `tactix-ai/src/utils/mod.rs` are older or broken copies and are not part of this model.
- Geometry: `add_assign` updates `self` in place. It is modelled as the value function `Add`, which gives the new value.
- Floating point: `f32` and `float` are modelled as exact reals, with no rounding, infinities or NaN. `sqrt` results are parameters tied to their argument by `IsSqrt`.
- Integer widths:
  - The `u64` tick and the `u32` ids and teams are unbounded.
  - `gridWidth * gridHeight` overflowing `uint32_t` is not modelled.
  - A float-to-`int32_t` cast that is out of range is undefined in C++; the model truncates without a bound.
  - `EntityHot` health is `uint8_t`; only the values 5 and 0 are ever stored.
- SpatialGrid.SpatialHash.constructor: requires `cellSize > 0` and non-negative world sizes. Otherwise the source divides by zero or casts a negative or infinite float to `uint32_t`.
- SpatialGrid.SpatialHash.Insert: requires a grid with at least one cell in each direction. On an empty grid the source's clamp yields `gridWidth - 1` wrapped around and indexes outside `cells`.
- SpatialGrid.SpatialHash.QueryNeighbors: the `radius` argument is accepted and ignored, as in the source.
- EntityStore.EntityHot.Reserve: vector capacities are not modelled, so `reserve` changes nothing that the model tracks.
- EntityStore.EntityHot.Spawn: the speed is a parameter that must be the square root of the squared velocity.
- Simulation.cpp: this file works on an `agents` vector of position/velocity pairs that `Simulation.hpp` does not declare. The model gives `CrowdSim.Simulation` that vector and the `debugGrid` flag. The entity store is modelled separately in `EntityStore`.
- Unreal plumbing:
  - not modelled: `HasAuthority` and the client path of `Reload`, the `Server_*`/`Multicast_*` RPCs, replication, delegate broadcasts, effects, `PerformAttackAction`, `OnTraceHit` and the attach/detach calls;
  - the reload timer is returned as its delay, and `FinishReload` is a separate call;
  - the actor `SpawnActor` returns is a parameter of `EquipWeapon`, with null meaning the spawn failed;
  - `Server_EquipWeapon_Validate` is not modelled;
  - weapon classes are naturals.
- Inventory.WeaponComponent.EquipWeapon: requires that every inventory entry the class search dereferences is non-null (`SearchSafe`). The source would dereference a null entry.
- Concurrency and rendering: the job system, `main.cpp` and `Simulation::draw` are not part of this model.
