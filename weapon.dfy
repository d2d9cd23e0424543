/**
 * The ammunition and state machine of a weapon (WeaponBase.cpp), without the
 * networking, timers, effects and the subclass's attack action. A weapon
 * holds its current ammunition (`int32`) and a state; its data asset, when
 * present, supplies the magazine size.
 */
module Weapons {
  import opened Options

  datatype WeaponState = Idle | Attacking | Reloading | Equipping

  /** The part of the weapon data asset the state machine reads. */
  datatype WeaponData = WeaponData(magazineSize: int, reloadTime: real)

  /** Ammunition a weapon without data starts with. */
  const DefaultAmmo: int := 30

  /** Reload delay used when the weapon has no data. */
  const DefaultReloadTime: real := 2.0

  /** How long the reload timer is set for before `FinishReload` runs. */
  function ReloadDelay(data: Option<WeaponData>): real {
    if data.Some? then data.value.reloadTime else DefaultReloadTime
  }

  /** The observable state of a weapon: ammunition and state. */
  datatype Magazine = Magazine(ammo: int, state: WeaponState)

  /** `CanAttack`: ammunition left and nothing else under way. */
  predicate CanAttack(m: Magazine) {
    m.ammo > 0 && m.state == Idle
  }

  /** `CanReload`: not in debt and nothing else under way; a full magazine qualifies. */
  predicate CanReload(m: Magazine) {
    m.ammo >= 0 && m.state == Idle
  }

  /** Ammunition right after construction. */
  function InitialAmmo(data: Option<WeaponData>): int {
    if data.Some? then data.value.magazineSize else DefaultAmmo
  }

  /** `ExecuteAttack`: when allowed, spend one round; the weapon passes through Attacking back to Idle. */
  function AttackStep(m: Magazine): (r: Magazine)
    ensures CanAttack(m) <==> r.ammo == m.ammo - 1
    ensures !CanAttack(m) ==> r == m
    ensures CanAttack(m) ==> r.state == Idle
    ensures m.ammo >= 0 ==> r.ammo >= 0
  {
    if CanAttack(m) then Magazine(m.ammo - 1, Idle) else m
  }

  /** `Reload` on the authority: when allowed, enter Reloading; ammunition is untouched until the reload finishes. */
  function ReloadStep(m: Magazine): (r: Magazine)
    ensures r.ammo == m.ammo
    ensures CanReload(m) ==> r.state == Reloading && !CanAttack(r) && !CanReload(r)
    ensures !CanReload(m) ==> r == m
  {
    if CanReload(m) then m.(state := Reloading) else m
  }

  /** `FinishReload`: refill to the magazine size (kept as is without data) and return to Idle. */
  function FinishStep(m: Magazine, data: Option<WeaponData>): (r: Magazine)
    ensures r.state == Idle
    ensures data.None? ==> r.ammo == m.ammo
    ensures data.Some? ==> r.ammo == data.value.magazineSize
    ensures data.Some? && data.value.magazineSize > 0 ==> CanAttack(r)
    ensures SaneData(data) && m.ammo >= 0 ==> CanReload(r)
  {
    Magazine(if data.Some? then data.value.magazineSize else m.ammo, Idle)
  }

  datatype WeaponOp = Attack | Reload | Finish

  function Step(m: Magazine, data: Option<WeaponData>, op: WeaponOp): Magazine {
    match op
    case Attack => AttackStep(m)
    case Reload => ReloadStep(m)
    case Finish => FinishStep(m, data)
  }

  /** The weapon after a sequence of operations, applied first to last. */
  function Run(m: Magazine, data: Option<WeaponData>, ops: seq<WeaponOp>): Magazine
    decreases |ops|
  {
    if ops == [] then m else Run(Step(m, data, ops[0]), data, ops[1..])
  }

  /** How many attacks in the sequence actually fire. */
  function Fired(m: Magazine, data: Option<WeaponData>, ops: seq<WeaponOp>): nat
    decreases |ops|
  {
    if ops == [] then 0
    else (if ops[0] == Attack && CanAttack(m) then 1 else 0) + Fired(Step(m, data, ops[0]), data, ops[1..])
  }

  /** The states a weapon can be observed in between operations, with non-negative ammunition. */
  predicate Sound(m: Magazine) {
    m.ammo >= 0 && (m.state == Idle || m.state == Reloading)
  }

  /** The data asset holds a usable magazine size. */
  predicate SaneData(data: Option<WeaponData>) {
    data.Some? ==> data.value.magazineSize >= 0
  }

  /** A freshly built weapon is idle with non-negative ammunition when its data is sane. */
  lemma InitialIsSound(data: Option<WeaponData>)
    requires SaneData(data)
    ensures Sound(Magazine(InitialAmmo(data), Idle))
    ensures CanReload(Magazine(InitialAmmo(data), Idle))
  {
  }

  /**
   * Every operation keeps a weapon sound: ammunition never drops below zero
   * (an attack needs a round), and Attacking or Equipping is never left
   * behind.
   */
  lemma {:induction false} RunKeepsSound(m: Magazine, data: Option<WeaponData>, ops: seq<WeaponOp>)
    requires Sound(m) && SaneData(data)
    ensures Sound(Run(m, data, ops))
    decreases |ops|
  {
    if ops != [] {
      RunKeepsSound(Step(m, data, ops[0]), data, ops[1..]);
    }
  }

  /**
   * Without a finished reload, every round fired is one round gone, so a
   * weapon fires at most the rounds it holds.
   */
  lemma {:induction false} ShotsBoundedByAmmo(m: Magazine, data: Option<WeaponData>, ops: seq<WeaponOp>)
    requires m.ammo >= 0
    requires Finish !in ops
    ensures Run(m, data, ops).ammo + Fired(m, data, ops) == m.ammo
    ensures Fired(m, data, ops) <= m.ammo
    decreases |ops|
  {
    if ops != [] {
      assert ops == [ops[0]] + ops[1..];
      assert Finish !in ops[1..];
      ShotsBoundedByAmmo(Step(m, data, ops[0]), data, ops[1..]);
    }
  }

  /** While reloading, attacks and further reloads do nothing: only the finish leaves the state. */
  lemma {:induction false} ReloadingBlocks(m: Magazine, data: Option<WeaponData>, ops: seq<WeaponOp>)
    requires m.state == Reloading
    requires Finish !in ops
    ensures Run(m, data, ops) == m
    ensures Fired(m, data, ops) == 0
    decreases |ops|
  {
    if ops != [] {
      assert ops == [ops[0]] + ops[1..];
      assert Finish !in ops[1..];
      ReloadingBlocks(Step(m, data, ops[0]), data, ops[1..]);
    }
  }

  /**
   * A reload that starts and finishes leaves the weapon idle and full; it
   * starts whenever the weapon is idle and not in debt, however many rounds
   * it holds. A refused reload leaves the weapon as it was.
   */
  lemma ReloadCycle(m: Magazine, data: Option<WeaponData>)
    ensures CanReload(m) ==> ReloadStep(m).state == Reloading && ReloadStep(m).ammo == m.ammo
    ensures !CanReload(m) ==> ReloadStep(m) == m
    ensures CanReload(m) && data.Some? ==>
      FinishStep(ReloadStep(m), data) == Magazine(data.value.magazineSize, Idle)
    ensures CanReload(m) ==> !CanAttack(ReloadStep(m))
  {
  }

  /** The weapon actor: its class, its data asset and the two replicated fields. */
  class WeaponBase {
    const weaponClass: nat
    const weaponData: Option<WeaponData>
    var currentAmmo: int
    var weaponState: WeaponState

    function Snapshot(): Magazine
      reads this
    {
      Magazine(currentAmmo, weaponState)
    }

    /** Start with a full magazine, or 30 rounds without data, in the zero state Idle. */
    constructor(weaponClass: nat, weaponData: Option<WeaponData>)
      ensures this.weaponClass == weaponClass && this.weaponData == weaponData
      ensures Snapshot() == Magazine(InitialAmmo(weaponData), Idle)
    {
      this.weaponClass := weaponClass;
      this.weaponData := weaponData;
      weaponState := Idle;
      if weaponData.Some? {
        currentAmmo := weaponData.value.magazineSize;
      } else {
        currentAmmo := DefaultAmmo;
      }
    }

    method SetWeaponState(newState: WeaponState)
      modifies this
      ensures weaponState == newState && currentAmmo == old(currentAmmo)
    {
      weaponState := newState;
    }

    method ConsumeAmmo()
      modifies this
      ensures currentAmmo == old(currentAmmo) - 1 && weaponState == old(weaponState)
    {
      currentAmmo := currentAmmo - 1;
    }

    /** Fire once if allowed: Attacking, spend a round, back to Idle. */
    method ExecuteAttack()
      modifies this
      ensures Snapshot() == AttackStep(old(Snapshot()))
    {
      if !CanAttack(Snapshot()) {
        return;
      }
      SetWeaponState(Attacking);
      ConsumeAmmo();
      SetWeaponState(Idle);
    }

    /**
     * Start reloading if allowed (the authority's path). The refill happens
     * in `FinishReload` when the timer fires; the timer is returned as the
     * delay it is set for, or None when the reload is refused.
     */
    method Reload() returns (timer: Option<real>)
      modifies this
      ensures Snapshot() == ReloadStep(old(Snapshot()))
      ensures timer.Some? <==> CanReload(old(Snapshot()))
      ensures timer.Some? ==> timer.value == ReloadDelay(weaponData)
    {
      if !CanReload(Snapshot()) {
        return None;
      }
      SetWeaponState(Reloading);
      timer := Some(if weaponData.Some? then weaponData.value.reloadTime else DefaultReloadTime);
    }

    method FinishReload()
      modifies this
      ensures Snapshot() == FinishStep(old(Snapshot()), weaponData)
    {
      currentAmmo := if weaponData.Some? then weaponData.value.magazineSize else currentAmmo;
      SetWeaponState(Idle);
    }
  }
}
