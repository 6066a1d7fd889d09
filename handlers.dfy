/**
 * The player's item actions of the current hook: `handleUseItem`,
 * `handleEquipItem` and `handleUnequipItem`. Each is the state update
 * it passes to `setGameState`, a function of the previous state.
 */
module Handlers {
  import opened Wrappers
  import opened Types
  import opened TurnDeltas
  import opened Inventory

  const FoodHeal := 10
  const PotionHeal := 30
  const FoodNote := "체력 10 회복 (+10 HP)"
  const PotionNote := "체력 30 회복 (+30 HP)"
  const WeaponOnPrefix := "무기 장착: "
  const WeaponOffPrefix := "무기 해제: "
  const ArmorOnPrefix := "방어구 장착: "
  const ArmorOffPrefix := "방어구 해제: "

  /** Prepend one HUD line and keep six. */
  function Push(note: string, hud: seq<string>): (r: seq<string>)
    ensures |r| == if |hud| < HistoryLimit then |hud| + 1 else HistoryLimit
    ensures r[0] == note
    ensures forall i :: 1 <= i < |r| ==> r[i] == hud[i - 1]
  {
    Cap([note] + hud)
  }

  /** How much hp using an item of the given type restores. */
  function Heal(kind: ItemType): int {
    if kind == Food then FoodHeal else if kind == Potion then PotionHeal else 0
  }

  /**
   * `handleUseItem`; `confirmed` is the player's answer to the
   * confirmation dialog. The effect is decided by the argument's type;
   * the held entry with that name loses one, whatever the type.
   */
  function UseItem(prev: GameState, item: Item, confirmed: bool): (next: GameState)
    ensures !confirmed || IndexOf(prev.items, item.name) < 0 ==> next == prev
    ensures confirmed && IndexOf(prev.items, item.name) >= 0 ==>
      && next.hp == prev.hp + Heal(item.kind)
      && next.items == DecrementAt(prev.items, IndexOf(prev.items, item.name))
      && (item.kind == Food ==> next.hudNotes == Push(FoodNote, prev.hudNotes))
      && (item.kind == Potion ==> next.hudNotes == Push(PotionNote, prev.hudNotes))
      && (item.kind != Food && item.kind != Potion ==> next.hudNotes == prev.hudNotes)
    ensures next.(hp := prev.hp, items := prev.items, hudNotes := prev.hudNotes) == prev
  {
    var k := IndexOf(prev.items, item.name);
    if !confirmed || k < 0 then prev
    else
      var hud :=
        if item.kind == Food then Push(FoodNote, prev.hudNotes)
        else if item.kind == Potion then Push(PotionNote, prev.hudNotes)
        else prev.hudNotes;
      prev.(hp := prev.hp + Heal(item.kind), items := DecrementAt(prev.items, k), hudNotes := hud)
  }

  /** Using an item keeps the inventory invariant and takes exactly one off the used name's quantity when it is held. */
  lemma UseItemQty(prev: GameState, item: Item, confirmed: bool, n: string)
    requires ValidInventory(prev.items)
    ensures var next := UseItem(prev, item, confirmed);
      && ValidInventory(next.items)
      && Qty(next.items, n) == Qty(prev.items, n) - (if confirmed && n == item.name && Qty(prev.items, n) > 0 then 1 else 0)
  {
    RemoveNameQty(prev.items, item.name);
    var k := IndexOf(prev.items, item.name);
    if k >= 0 {
      QtyAt(prev.items, k);
    }
  }

  /** `handleUseItem`'s update as the source performs it: look the name up, heal, then decrement or splice. */
  method HandleUseItem(prev: GameState, item: Item, confirmed: bool) returns (next: GameState)
    ensures next == UseItem(prev, item, confirmed)
  {
    if !confirmed {
      return prev;
    }
    var hp := prev.hp;
    var items := prev.items;
    var hud := prev.hudNotes;
    var k := FindIndex(items, item.name);
    if k > -1 {
      if item.kind == Food {
        hp := prev.hp + FoodHeal;
        hud := Push(FoodNote, hud);
      } else if item.kind == Potion {
        hp := prev.hp + PotionHeal;
        hud := Push(PotionNote, hud);
      }
      if items[k].quantity > 1 {
        items := items[k := items[k].(quantity := items[k].quantity - 1)];
      } else {
        items := items[..k] + items[k + 1..];
      }
    }
    next := prev.(hp := hp, items := items, hudNotes := hud);
  }

  /** The equipment slot an equip or unequip of `kind` works on. */
  function Slot(s: GameState, kind: ItemType): Option<Item>
    requires kind == Weapon || kind == Armor
  {
    if kind == Weapon then s.equippedWeapon else s.equippedArmor
  }

  /** What is in the equipment slots, as a multiset. */
  function Equipped(s: GameState): multiset<Item> {
    (if s.equippedWeapon.Some? then multiset{s.equippedWeapon.value} else multiset{})
    + (if s.equippedArmor.Some? then multiset{s.equippedArmor.value} else multiset{})
  }

  /** Everything the player has: the inventory and the slots. */
  function Belongings(s: GameState): multiset<Item> {
    multiset(s.items) + Equipped(s)
  }

  /**
   * `handleEquipItem`. Only weapons and armor can be equipped, and only
   * when an entry with the name is held: that entry is spliced out
   * whole, the item in the slot (if any) goes to the end of the
   * inventory, and the argument takes the slot.
   */
  function EquipItem(prev: GameState, item: Item): (next: GameState)
    ensures (item.kind != Weapon && item.kind != Armor) || IndexOf(prev.items, item.name) < 0 ==> next == prev
    ensures (item.kind == Weapon || item.kind == Armor) && IndexOf(prev.items, item.name) >= 0 ==>
      var k := IndexOf(prev.items, item.name);
      var prior := Slot(prev, item.kind);
      && Slot(next, item.kind) == Some(item)
      && next.items == RemoveAt(prev.items, k) + (if prior.Some? then [prior.value] else [])
      && next.hudNotes == Push((if item.kind == Weapon then WeaponOnPrefix else ArmorOnPrefix) + item.name,
           if prior.Some? then Push((if item.kind == Weapon then WeaponOffPrefix else ArmorOffPrefix) + prior.value.name, prev.hudNotes)
           else prev.hudNotes)
      && (item.kind == Weapon ==> next.equippedArmor == prev.equippedArmor)
      && (item.kind == Armor ==> next.equippedWeapon == prev.equippedWeapon)
    ensures next.(items := prev.items, equippedWeapon := prev.equippedWeapon, equippedArmor := prev.equippedArmor,
                  hudNotes := prev.hudNotes) == prev
  {
    var k := IndexOf(prev.items, item.name);
    if (item.kind != Weapon && item.kind != Armor) || k < 0 then prev
    else
      var rest := RemoveAt(prev.items, k);
      if item.kind == Weapon then
        var w := prev.equippedWeapon;
        var items := if w.Some? then rest + [w.value] else rest;
        var hud := if w.Some? then Push(WeaponOffPrefix + w.value.name, prev.hudNotes) else prev.hudNotes;
        prev.(items := items, equippedWeapon := Some(item), hudNotes := Push(WeaponOnPrefix + item.name, hud))
      else
        var a := prev.equippedArmor;
        var items := if a.Some? then rest + [a.value] else rest;
        var hud := if a.Some? then Push(ArmorOffPrefix + a.value.name, prev.hudNotes) else prev.hudNotes;
        prev.(items := items, equippedArmor := Some(item), hudNotes := Push(ArmorOnPrefix + item.name, hud))
  }

  /** `handleEquipItem`'s update as the source performs it: splice the entry out, push the displaced item, fill the slot. */
  method HandleEquipItem(prev: GameState, item: Item) returns (next: GameState)
    ensures next == EquipItem(prev, item)
  {
    if item.kind != Weapon && item.kind != Armor {
      return prev;
    }
    var items := prev.items;
    var weapon := prev.equippedWeapon;
    var armor := prev.equippedArmor;
    var hud := prev.hudNotes;
    var k := FindIndex(items, item.name);
    if k == -1 {
      return prev;
    }
    items := items[..k] + items[k + 1..];
    if item.kind == Weapon {
      if weapon.Some? {
        items := items + [weapon.value];
        hud := Push(WeaponOffPrefix + weapon.value.name, hud);
      }
      weapon := Some(item);
      hud := Push(WeaponOnPrefix + item.name, hud);
    } else {
      if armor.Some? {
        items := items + [armor.value];
        hud := Push(ArmorOffPrefix + armor.value.name, hud);
      }
      armor := Some(item);
      hud := Push(ArmorOnPrefix + item.name, hud);
    }
    next := prev.(items := items, equippedWeapon := weapon, equippedArmor := armor, hudNotes := hud);
  }

  /**
   * `handleUnequipItem`: when the argument's type names a slot holding an
   * item of the same name, that item moves to the end of the inventory
   * and the slot empties; otherwise nothing changes.
   */
  function UnequipItem(prev: GameState, item: Item): (next: GameState)
    ensures var matches := (item.kind == Weapon || item.kind == Armor)
              && Slot(prev, item.kind).Some? && Slot(prev, item.kind).value.name == item.name;
      && (!matches ==> next == prev)
      && (matches ==>
            && Slot(next, item.kind).None?
            && next.items == prev.items + [Slot(prev, item.kind).value]
            && next.hudNotes == Push((if item.kind == Weapon then WeaponOffPrefix else ArmorOffPrefix) + item.name, prev.hudNotes)
            && (item.kind == Weapon ==> next.equippedArmor == prev.equippedArmor)
            && (item.kind == Armor ==> next.equippedWeapon == prev.equippedWeapon))
    ensures next.(items := prev.items, equippedWeapon := prev.equippedWeapon, equippedArmor := prev.equippedArmor,
                  hudNotes := prev.hudNotes) == prev
  {
    if item.kind == Weapon && prev.equippedWeapon.Some? && prev.equippedWeapon.value.name == item.name then
      prev.(items := prev.items + [prev.equippedWeapon.value], equippedWeapon := None,
            hudNotes := Push(WeaponOffPrefix + item.name, prev.hudNotes))
    else if item.kind == Armor && prev.equippedArmor.Some? && prev.equippedArmor.value.name == item.name then
      prev.(items := prev.items + [prev.equippedArmor.value], equippedArmor := None,
            hudNotes := Push(ArmorOffPrefix + item.name, prev.hudNotes))
    else prev
  }

  lemma MultisetRemoveAt(items: seq<Item>, k: nat)
    requires k < |items|
    ensures multiset(RemoveAt(items, k)) + multiset{items[k]} == multiset(items)
  {
    assert items == items[..k] + [items[k]] + items[k + 1..];
  }

  /** Unequipping moves an item between the slot and the inventory: the player's belongings are unchanged. */
  lemma UnequipConserves(prev: GameState, item: Item)
    ensures Belongings(UnequipItem(prev, item)) == Belongings(prev)
  {
  }

  /** What leaves the slot when `item` is equipped. */
  function Displaced(prev: GameState, item: Item): seq<Item>
    requires item.kind == Weapon || item.kind == Armor
  {
    var prior := Slot(prev, item.kind);
    if prior.Some? then [prior.value] else []
  }

  lemma EquipMoves(prev: GameState, item: Item)
    requires item.kind == Weapon || item.kind == Armor
    requires IndexOf(prev.items, item.name) >= 0
    ensures var next := EquipItem(prev, item);
      && next.items == RemoveAt(prev.items, IndexOf(prev.items, item.name)) + Displaced(prev, item)
      && Equipped(next) + multiset(Displaced(prev, item)) == Equipped(prev) + multiset{item}
  {
  }

  /**
   * Equipping swaps the held entry for the argument: the belongings lose
   * that entry and gain the argument, so when the argument is the held
   * entry itself nothing is created or lost.
   */
  lemma EquipConserves(prev: GameState, item: Item)
    requires item.kind == Weapon || item.kind == Armor
    requires IndexOf(prev.items, item.name) >= 0
    ensures var k := IndexOf(prev.items, item.name);
      Belongings(EquipItem(prev, item)) + multiset{prev.items[k]} == Belongings(prev) + multiset{item}
    ensures prev.items[IndexOf(prev.items, item.name)] == item ==> Belongings(EquipItem(prev, item)) == Belongings(prev)
  {
    var k := IndexOf(prev.items, item.name);
    MultisetRemoveAt(prev.items, k);
    EquipMoves(prev, item);
    var next := EquipItem(prev, item);
    var rest := RemoveAt(prev.items, k);
    var back := Displaced(prev, item);
    var e := multiset{prev.items[k]};
    assert multiset(next.items) == multiset(rest) + multiset(back);
    SwapBalance(multiset(rest), multiset(back), Equipped(next), e, multiset(prev.items), Equipped(prev), multiset{item});
    if prev.items[k] == item {
      Cancel(Belongings(next), Belongings(prev), e);
    }
  }

  /** Multiset bookkeeping of a swap: what stays, what comes back and what moves balance out. */
  lemma SwapBalance(rest: multiset<Item>, back: multiset<Item>, now: multiset<Item>, e: multiset<Item>,
                    held: multiset<Item>, was: multiset<Item>, added: multiset<Item>)
    requires rest + e == held && now + back == was + added
    ensures (rest + back + now) + e == held + (was + added)
  {
  }

  lemma Cancel(x: multiset<Item>, y: multiset<Item>, e: multiset<Item>)
    requires x + e == y + e
    ensures x == y
  {
    assert forall v :: x[v] == (x + e)[v] - e[v];
  }

  /**
   * Equipping a held weapon into an empty slot and then unequipping it
   * gives the slot back empty and the same belongings, with the item now
   * at the end of the inventory.
   */
  lemma EquipThenUnequip(prev: GameState, item: Item)
    requires item.kind == Weapon || item.kind == Armor
    requires IndexOf(prev.items, item.name) >= 0 && prev.items[IndexOf(prev.items, item.name)] == item
    requires Slot(prev, item.kind).None?
    ensures var next := UnequipItem(EquipItem(prev, item), item);
      && Slot(next, item.kind).None?
      && next.equippedWeapon == prev.equippedWeapon && next.equippedArmor == prev.equippedArmor
      && next.items == RemoveAt(prev.items, IndexOf(prev.items, item.name)) + [item]
      && multiset(next.items) == multiset(prev.items)
  {
    MultisetRemoveAt(prev.items, IndexOf(prev.items, item.name));
  }

  /**
   * The inventory invariant survives equipping when the item coming out
   * of the slot is not also held under its name; a held duplicate name
   * is not merged, so the invariant can break there.
   */
  lemma EquipKeepsValid(prev: GameState, item: Item)
    requires ValidInventory(prev.items)
    requires item.kind == Weapon || item.kind == Armor
    requires Slot(prev, item.kind).Some? ==>
      && Slot(prev, item.kind).value.quantity >= 1
      && forall j :: 0 <= j < |prev.items| && prev.items[j].name == Slot(prev, item.kind).value.name ==>
           prev.items[j].name == item.name
    ensures ValidInventory(EquipItem(prev, item).items)
  {
    var k := IndexOf(prev.items, item.name);
    if k >= 0 {
      RemoveAtValid(prev.items, k);
      var rest := RemoveAt(prev.items, k);
      RemoveAtIndex(prev.items, k);
      EquipMoves(prev, item);
      var prior := Slot(prev, item.kind);
      if prior.Some? {
        forall i | 0 <= i < |rest|
          ensures rest[i].name != prior.value.name
        {
          assert rest[i] == prev.items[if i < k then i else i + 1];
        }
        AppendFreshValid(rest, prior.value);
      } else {
        assert rest + Displaced(prev, item) == rest;
      }
    }
  }
}
