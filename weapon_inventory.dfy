/**
 * The weapon inventory of a character (WeaponComponent.cpp): the weapons it
 * has spawned and the one currently equipped. Only the server-side effect on
 * the two fields is modelled; attaching meshes and replication are not.
 */
module Inventory {
  import opened Options
  import opened Weapons

  /**
   * The class search of equip-by-class dereferences every entry it looks
   * at, up to and including the first of the wanted class: those entries
   * must exist.
   */
  predicate SearchSafe(inventory: seq<WeaponBase?>, weaponClass: nat)
    decreases |inventory|
  {
    inventory == [] ||
    (inventory[0] != null && (inventory[0].weaponClass == weaponClass || SearchSafe(inventory[1..], weaponClass)))
  }

  /** The slot of the first inventory weapon of a class, if there is one. */
  function FirstOfClass(inventory: seq<WeaponBase?>, weaponClass: nat): (r: Option<nat>)
    requires SearchSafe(inventory, weaponClass)
    ensures r.Some? ==>
      r.value < |inventory| && inventory[r.value] != null && inventory[r.value].weaponClass == weaponClass
    ensures r.Some? ==> forall j :: 0 <= j < r.value ==> inventory[j] != null && inventory[j].weaponClass != weaponClass
    ensures r.None? <==> forall j :: 0 <= j < |inventory| ==> inventory[j] != null && inventory[j].weaponClass != weaponClass
    decreases |inventory|
  {
    if inventory == [] then None
    else if inventory[0].weaponClass == weaponClass then Some(0)
    else
      match FirstOfClass(inventory[1..], weaponClass)
      case None => None
      case Some(i) => Some(i + 1)
  }

  class WeaponComponent {
    var currentWeapon: WeaponBase?
    var inventory: seq<WeaponBase?>

    /** The equipped weapon, if any, is one of the character's own. */
    ghost predicate Valid()
      reads this
    {
      currentWeapon == null || currentWeapon in inventory
    }

    constructor()
      ensures currentWeapon == null && inventory == [] && Valid()
    {
      currentWeapon := null;
      inventory := [];
    }

    /** `Server_EquipSlot_Validate`: the slot indexes the inventory. */
    predicate EquipSlotValidate(slotIndex: int)
      reads this
    {
      0 <= slotIndex < |inventory|
    }

    /** Unequip: the equipped weapon, if any, is released; the inventory is kept. */
    method DetachCurrentWeapon()
      modifies this
      ensures currentWeapon == null && inventory == old(inventory)
      ensures Valid()
    {
      if currentWeapon == null {
        return;
      }
      currentWeapon := null;
    }

    /** `Server_UnEquipWeapon_Implementation`. */
    method UnEquipWeapon()
      modifies this
      ensures currentWeapon == null && inventory == old(inventory)
      ensures Valid()
    {
      DetachCurrentWeapon();
    }

    /**
     * Equip the weapon in a slot. An invalid slot, an empty slot or the weapon
     * already equipped changes nothing; otherwise that weapon becomes current.
     * The inventory never changes.
     */
    method EquipSlot(slotIndex: int)
      modifies this
      ensures inventory == old(inventory)
      ensures old(EquipSlotValidate(slotIndex)) && old(inventory)[slotIndex] != null ==>
        currentWeapon == old(inventory)[slotIndex]
      ensures !old(EquipSlotValidate(slotIndex)) || old(inventory)[slotIndex] == null ==>
        currentWeapon == old(currentWeapon)
      ensures old(Valid()) ==> Valid()
    {
      if !EquipSlotValidate(slotIndex) {
        return;
      }
      var newWeapon := inventory[slotIndex];
      if newWeapon != null && newWeapon != currentWeapon {
        DetachCurrentWeapon();
        currentWeapon := newWeapon;
      }
    }

    /**
     * Equip by class. The first inventory weapon of the class becomes current
     * if there is one. Otherwise `spawned`, the actor the world spawned for
     * the class (null when spawning failed), is appended and equipped; a
     * failed spawn changes nothing.
     */
    method EquipWeapon(weaponClass: nat, spawned: WeaponBase?)
      requires SearchSafe(inventory, weaponClass)
      requires spawned != null ==> spawned.weaponClass == weaponClass
      modifies this
      ensures FirstOfClass(old(inventory), weaponClass).Some? ==>
        inventory == old(inventory) && currentWeapon == old(inventory)[FirstOfClass(old(inventory), weaponClass).value]
      ensures FirstOfClass(old(inventory), weaponClass).None? && spawned != null ==>
        inventory == old(inventory) + [spawned] && currentWeapon == spawned
      ensures FirstOfClass(old(inventory), weaponClass).None? && spawned == null ==>
        inventory == old(inventory) && currentWeapon == old(currentWeapon)
      ensures currentWeapon != old(currentWeapon) ==> currentWeapon != null && currentWeapon.weaponClass == weaponClass
      ensures old(Valid()) ==> Valid()
    {
      var slot := FindOfClass(weaponClass);
      if slot.Some? {
        var w := inventory[slot.value];
        DetachCurrentWeapon();
        currentWeapon := w;
        return;
      }
      if spawned != null {
        inventory := inventory + [spawned];
        DetachCurrentWeapon();
        currentWeapon := spawned;
      }
    }

    /** The search loop of equip-by-class: the slot of the first weapon of the class. */
    method FindOfClass(weaponClass: nat) returns (slot: Option<nat>)
      requires SearchSafe(inventory, weaponClass)
      ensures slot == FirstOfClass(inventory, weaponClass)
    {
      var i := 0;
      while i < |inventory|
        invariant 0 <= i <= |inventory|
        invariant SearchSafe(inventory[i..], weaponClass)
        invariant FirstOfClass(inventory, weaponClass) == (match FirstOfClass(inventory[i..], weaponClass)
                            case None => None
                            case Some(k) => Some(k + i))
      {
        if inventory[i].weaponClass == weaponClass {
          return Some(i);
        }
        assert inventory[i..][1..] == inventory[i + 1..];
        i := i + 1;
      }
      return None;
    }
  }
}
