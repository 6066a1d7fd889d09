/**
 * The item classifier and the inventory edits of the current hook:
 * `categorizeItem`, the `find`/`findIndex` lookups, stacking on add,
 * unstacking on remove, and the upgrade applied to loaded items.
 */
module Inventory {
  import opened Wrappers
  import opened Text
  import opened Types
  import GameConfig

  const WeaponKeys: seq<string> := ["검", "도끼", "활", "지팡이"]
  const FoodKeys: seq<string> := ["빵", "고기", "약초", "사과"]
  const ArmorKeys: seq<string> := ["갑옷", "방패", "투구", "갑주"]
  const PotionKeys: seq<string> := ["포션", "물약", "회복제"]
  const KeyKeys: seq<string> := ["열쇠"]
  const BookKeys: seq<string> := ["책", "스크롤", "두루마리"]

  /** Some keyword of the group occurs in `s`. */
  predicate ContainsAny(s: string, keys: seq<string>) {
    |keys| > 0 && (Contains(s, keys[0]) || ContainsAny(s, keys[1..]))
  }

  lemma {:induction false} ContainsAnyAt(s: string, keys: seq<string>, i: nat)
    requires i < |keys| && Contains(s, keys[i])
    ensures ContainsAny(s, keys)
  {
    if i > 0 {
      assert keys[1..][i - 1] == keys[i];
      ContainsAnyAt(s, keys[1..], i - 1);
    }
  }

  /** `name.trim().toLowerCase()`. */
  function Normalize(name: string): string {
    Lower(Trim(name))
  }

  /**
   * `categorizeItem`: the keyword groups are tried, on the trimmed and
   * lower-cased name, in the order weapon, food, armor, potion, key,
   * book; no match gives misc.
   */
  function Classify(name: string): ItemType {
    ClassifyNormalized(Normalize(name))
  }

  function ClassifyNormalized(n: string): ItemType {
    if ContainsAny(n, WeaponKeys) then Weapon
    else if ContainsAny(n, FoodKeys) then Food
    else if ContainsAny(n, ArmorKeys) then Armor
    else if ContainsAny(n, PotionKeys) then Potion
    else if ContainsAny(n, KeyKeys) then Key
    else if ContainsAny(n, BookKeys) then Book
    else Misc
  }

  /** The keyword group of each type; misc has none. */
  function KeysOf(t: ItemType): seq<string> {
    match t
    case Weapon => WeaponKeys
    case Food => FoodKeys
    case Armor => ArmorKeys
    case Potion => PotionKeys
    case Key => KeyKeys
    case Book => BookKeys
    case Misc => []
  }

  /** The position of each type in the classifier's order of preference. */
  function Rank(t: ItemType): nat {
    match t
    case Weapon => 0
    case Food => 1
    case Armor => 2
    case Potion => 3
    case Key => 4
    case Book => 5
    case Misc => 6
  }

  /**
   * The classifier picks the most preferred type whose keywords occur in
   * the normalised name: the chosen group does occur, no preferred group
   * occurs, and misc is chosen exactly when no group occurs.
   */
  lemma ClassifyPicksFirstMatch(name: string)
    ensures var n := Normalize(name); var t := Classify(name);
      && (t != Misc ==> ContainsAny(n, KeysOf(t)))
      && (forall g :: ContainsAny(n, KeysOf(g)) ==> Rank(t) <= Rank(g))
      && (t == Misc <==> forall g :: !ContainsAny(n, KeysOf(g)))
  {
    FirstMatchNormalized(Normalize(name));
  }

  lemma FirstMatchNormalized(n: string)
    ensures var t := ClassifyNormalized(n);
      && (t != Misc ==> ContainsAny(n, KeysOf(t)))
      && (forall g :: ContainsAny(n, KeysOf(g)) ==> Rank(t) <= Rank(g))
      && (t == Misc <==> forall g :: !ContainsAny(n, KeysOf(g)))
  {
    assert !ContainsAny(n, KeysOf(Misc));
  }

  /** First match wins: a normalised name holding a weapon keyword is a weapon whatever else it holds, "검" and "갑옷" included. */
  lemma WeaponKeywordWins(name: string, i: nat)
    requires var n := Normalize(name); i + 1 <= |n| && n[i..i + 1] == "검"
    ensures Classify(name) == Weapon
  {
    var n := Normalize(name);
    ContainsAt(n, "검", i);
    ContainsAnyAt(n, WeaponKeys, 0);
  }

  /** A name that is already trimmed and has no capitals is its own normal form. */
  lemma NormalizeFixed(s: string)
    requires |s| > 0 && !IsSpace(s[0]) && !IsSpace(s[|s| - 1])
    requires forall i :: 0 <= i < |s| ==> !('A' <= s[i] <= 'Z')
    ensures Normalize(s) == s
  {
    TrimNoEdgeSpace(s);
    LowerNoCapitals(s);
  }

  lemma CharAt(s: string, i: nat)
    requires i < |s|
    ensures s[i..i + 1] == [s[i]]
  {
  }

  /** A name in normal form with "검" at position `i` is a weapon. */
  lemma WeaponAt(s: string, i: nat)
    requires i < |s| && s[i] == '검'
    requires !IsSpace(s[0]) && !IsSpace(s[|s| - 1])
    requires forall j :: 0 <= j < |s| ==> !('A' <= s[j] <= 'Z')
    ensures Classify(s) == Weapon
  {
    NormalizeFixed(s);
    CharAt(s, i);
    WeaponKeywordWins(s, i);
  }

  lemma SwordIsWeapon()
    ensures Classify(GameConfig.SwordName) == Weapon
  {
    WeaponAt(GameConfig.SwordName, 4);
  }

  lemma {:induction false} ContainsNoneOf(s: string, keys: seq<string>)
    requires forall j :: 0 <= j < |keys| ==> !Contains(s, keys[j])
    ensures !ContainsAny(s, keys)
  {
    if |keys| > 0 {
      ContainsNoneOf(s, keys[1..]);
    }
  }

  /** No weapon keyword can occur in a name without the characters that start them. */
  lemma NoWeaponKeyword(s: string)
    requires '검' !in s && '도' !in s && '활' !in s && '지' !in s
    ensures !ContainsAny(s, WeaponKeys)
  {
    NotContains(s, "검");
    NotContains(s, "도끼");
    NotContains(s, "활");
    NotContains(s, "지팡이");
    ContainsNoneOf(s, WeaponKeys);
  }

  lemma FoodWhenNoWeapon(s: string)
    requires Normalize(s) == s
    requires !ContainsAny(s, WeaponKeys) && ContainsAny(s, FoodKeys)
    ensures Classify(s) == Food
  {
  }

  /** A normal-form name holding "빵" and no character that starts a weapon keyword is food. */
  lemma FoodKeywordOnly(s: string, i: nat)
    requires Normalize(s) == s
    requires i + 1 <= |s| && s[i..i + 1] == "빵"
    requires '검' !in s && '도' !in s && '활' !in s && '지' !in s
    ensures Classify(s) == Food
  {
    NoWeaponKeyword(s);
    ContainsAt(s, "빵", i);
    ContainsAnyAt(s, FoodKeys, 0);
    FoodWhenNoWeapon(s);
  }

  /** A name in normal form with "빵" at position `i` and no character starting a weapon keyword is food. */
  lemma FoodAt(s: string, i: nat)
    requires i < |s| && s[i] == '빵'
    requires !IsSpace(s[0]) && !IsSpace(s[|s| - 1])
    requires forall j :: 0 <= j < |s| ==> !('A' <= s[j] <= 'Z')
    requires '검' !in s && '도' !in s && '활' !in s && '지' !in s
    ensures Classify(s) == Food
  {
    NormalizeFixed(s);
    CharAt(s, i);
    FoodKeywordOnly(s, i);
  }

  lemma BreadIsFood()
    ensures Classify(GameConfig.BreadName) == Food
  {
    FoodAt(GameConfig.BreadName, 0);
  }

  /** The two starting items carry the types the classifier gives their names, so reloading them keeps their types. */
  lemma StartingItemsClassified()
    ensures Classify(GameConfig.SwordName) == Weapon
    ensures Classify(GameConfig.BreadName) == Food
    ensures forall it :: it in GameConfig.DefaultItems ==> it.kind == Classify(it.name)
  {
    SwordIsWeapon();
    BreadIsFood();
  }

  /**
   * `items.findIndex(item => item.name === name)` (and `find`, which
   * returns the entry at that index). The hook's genre lookup is the same
   * scan over another list and key; it is `GenreSelect.IndexOfId`, kept
   * apart so that each file states its own lookup on its own entity.
   */
  function IndexOf(items: seq<Item>, name: string): (r: int)
    ensures -1 <= r < |items|
    ensures r == -1 <==> forall j :: 0 <= j < |items| ==> items[j].name != name
    ensures 0 <= r ==> items[r].name == name && forall j :: 0 <= j < r ==> items[j].name != name
  {
    if |items| == 0 then -1
    else if items[0].name == name then 0
    else
      var r := IndexOf(items[1..], name);
      if r == -1 then -1 else r + 1
  }

  /** The linear scan behind `findIndex`. */
  method FindIndex(items: seq<Item>, name: string) returns (idx: int)
    ensures idx == IndexOf(items, name)
  {
    idx := 0;
    while idx < |items| && items[idx].name != name
      invariant 0 <= idx <= |items|
      invariant forall j :: 0 <= j < idx ==> items[j].name != name
    {
      idx := idx + 1;
    }
    if idx == |items| {
      idx := -1;
    }
  }

  /** The inventory invariant: every quantity at least 1 and no two entries with the same name. */
  predicate ValidInventory(items: seq<Item>) {
    && (forall i :: 0 <= i < |items| ==> items[i].quantity >= 1)
    && (forall i, j :: 0 <= i < j < |items| ==> items[i].name != items[j].name)
  }

  /** The quantity held under `name`: that of the first entry with the name, or 0. */
  function Qty(items: seq<Item>, name: string): int {
    var k := IndexOf(items, name);
    if k >= 0 then items[k].quantity else 0
  }

  /** `multiset(names)[n]`: how often `n` is listed. */
  function Count(names: seq<string>, n: string): nat {
    multiset(names)[n]
  }

  function Max0(x: int): int {
    if x < 0 then 0 else x
  }

  /** An entry created from a bare name: quantity 1, classified type, no bonuses. */
  function NewItem(name: string): Item {
    Item(name, 1, Classify(name), None, None)
  }

  /** Remove the entry at `k`: `splice(k, 1)`. */
  function RemoveAt(items: seq<Item>, k: nat): seq<Item>
    requires k < |items|
  {
    items[..k] + items[k + 1..]
  }

  /** Take one off the entry at `k`: decrement, or drop the entry when this was the last one. */
  function DecrementAt(items: seq<Item>, k: nat): seq<Item>
    requires k < |items|
  {
    if items[k].quantity > 1 then items[k := items[k].(quantity := items[k].quantity - 1)] else RemoveAt(items, k)
  }

  /** One `itemsAdd` step: stack onto the existing entry, or append a new one. */
  function AddName(items: seq<Item>, name: string): seq<Item> {
    var k := IndexOf(items, name);
    if k >= 0 then items[k := items[k].(quantity := items[k].quantity + 1)] else items + [NewItem(name)]
  }

  lemma AddNameStacks(items: seq<Item>, x: string, k: nat)
    requires k < |items| && IndexOf(items, x) == k
    ensures AddName(items, x) == items[k := items[k].(quantity := items[k].quantity + 1)]
  {
  }

  lemma AddNameAppends(items: seq<Item>, x: string)
    requires IndexOf(items, x) < 0
    ensures AddName(items, x) == items + [NewItem(x)]
  {
  }

  /** One `itemsRemove` step: unstack the entry; a name that is not held is ignored. */
  function RemoveName(items: seq<Item>, name: string): seq<Item> {
    var k := IndexOf(items, name);
    if k >= 0 then DecrementAt(items, k) else items
  }

  function AddAll(items: seq<Item>, names: seq<string>): seq<Item> {
    if |names| == 0 then items else AddName(AddAll(items, names[..|names| - 1]), names[|names| - 1])
  }

  function RemoveAll(items: seq<Item>, names: seq<string>): seq<Item> {
    if |names| == 0 then items else RemoveName(RemoveAll(items, names[..|names| - 1]), names[|names| - 1])
  }

  /** With unique names, the quantity under an entry's name is that entry's quantity. */
  lemma QtyAt(items: seq<Item>, j: nat)
    requires ValidInventory(items) && j < |items|
    ensures Qty(items, items[j].name) == items[j].quantity
  {
  }

  /** Lookups see only names, so a change to other fields leaves every index in place. */
  lemma IndexOfSameNames(a: seq<Item>, b: seq<Item>, n: string)
    requires |a| == |b| && forall i :: 0 <= i < |a| ==> a[i].name == b[i].name
    ensures IndexOf(a, n) == IndexOf(b, n)
  {
  }

  /** Appending one entry: an earlier match still wins, otherwise the new entry may match. */
  lemma {:induction false} IndexOfAppend(items: seq<Item>, it: Item, n: string)
    ensures IndexOf(items + [it], n) ==
      if IndexOf(items, n) >= 0 then IndexOf(items, n) else if it.name == n then |items| else -1
  {
    if |items| > 0 && items[0].name != n {
      assert (items + [it])[1..] == items[1..] + [it];
      IndexOfAppend(items[1..], it, n);
    }
  }

  /** Bumping the quantity at `k` by `d` changes the quantity under that entry's name only. */
  lemma QtyBump(items: seq<Item>, k: nat, d: int, n: string)
    requires k < |items| && IndexOf(items, items[k].name) == k
    ensures var r := items[k := items[k].(quantity := items[k].quantity + d)];
      Qty(r, n) == Qty(items, n) + (if n == items[k].name then d else 0)
  {
    var r := items[k := items[k].(quantity := items[k].quantity + d)];
    IndexOfSameNames(items, r, n);
  }

  lemma AddNameValid(items: seq<Item>, x: string)
    requires ValidInventory(items)
    ensures ValidInventory(AddName(items, x))
  {
    var k := IndexOf(items, x);
    if k < 0 {
      AppendFreshValid(items, NewItem(x));
    } else {
      BumpValid(items, k);
    }
  }

  /** Appending an entry of quantity at least 1 under a name not yet held keeps the invariant. */
  lemma AppendFreshValid(items: seq<Item>, it: Item)
    requires ValidInventory(items) && it.quantity >= 1
    requires forall j :: 0 <= j < |items| ==> items[j].name != it.name
    ensures ValidInventory(items + [it])
  {
    var r := items + [it];
    assert forall i :: 0 <= i < |items| ==> r[i] == items[i];
  }

  /** Raising one entry's quantity keeps the invariant. */
  lemma BumpValid(items: seq<Item>, k: nat)
    requires ValidInventory(items) && k < |items|
    ensures ValidInventory(items[k := items[k].(quantity := items[k].quantity + 1)])
  {
  }

  lemma AddNameQtyOf(items: seq<Item>, x: string, n: string)
    requires ValidInventory(items)
    ensures Qty(AddName(items, x), n) == Qty(items, n) + (if n == x then 1 else 0)
  {
    var k := IndexOf(items, x);
    if k >= 0 {
      var r := items[k := items[k].(quantity := items[k].quantity + 1)];
      assert AddName(items, x) == r;
      QtyAfterBump(items, k, n);
      assert Qty(r, n) == Qty(items, n) + (if n == items[k].name then 1 else 0);
    } else {
      var it := NewItem(x);
      assert it.name == x && it.quantity == 1;
      assert AddName(items, x) == items + [it];
      QtyAppend(items, it, n);
    }
  }

  lemma QtyAfterBump(items: seq<Item>, k: nat, n: string)
    requires ValidInventory(items) && k < |items|
    ensures Qty(items[k := items[k].(quantity := items[k].quantity + 1)], n) == Qty(items, n) + (if n == items[k].name then 1 else 0)
  {
    QtyAt(items, k);
    QtyBump(items, k, 1, n);
  }

  /** Appending an entry under a name not yet held adds its quantity to that name only. */
  lemma QtyAppend(items: seq<Item>, it: Item, n: string)
    requires IndexOf(items, it.name) < 0
    ensures Qty(items + [it], n) == Qty(items, n) + (if n == it.name then it.quantity else 0)
  {
    IndexOfAppend(items, it, n);
    if n == it.name {
      assert IndexOf(items, n) < 0;
    }
  }

  /** Stacking keeps the invariant and adds exactly one to the added name's quantity. */
  lemma AddNameQty(items: seq<Item>, x: string)
    requires ValidInventory(items)
    ensures ValidInventory(AddName(items, x))
    ensures forall n :: Qty(AddName(items, x), n) == Qty(items, n) + (if n == x then 1 else 0)
  {
    AddNameValid(items, x);
    forall n ensures Qty(AddName(items, x), n) == Qty(items, n) + (if n == x then 1 else 0) {
      AddNameQtyOf(items, x, n);
    }
  }

  /** Entry `i` of `RemoveAt(items, k)` is entry `i` or `i + 1` of `items`. */
  lemma RemoveAtIndex(items: seq<Item>, k: nat)
    requires k < |items|
    ensures |RemoveAt(items, k)| == |items| - 1
    ensures forall i :: 0 <= i < |items| - 1 ==> RemoveAt(items, k)[i] == items[if i < k then i else i + 1]
  {
  }

  lemma RemoveAtValid(items: seq<Item>, k: nat)
    requires ValidInventory(items) && k < |items|
    ensures ValidInventory(RemoveAt(items, k))
    ensures forall i :: 0 <= i < |RemoveAt(items, k)| ==> RemoveAt(items, k)[i].name != items[k].name
  {
    RemoveAtIndex(items, k);
  }

  lemma RemoveAtQty(items: seq<Item>, k: nat, n: string)
    requires ValidInventory(items) && k < |items|
    ensures Qty(RemoveAt(items, k), n) == if n == items[k].name then 0 else Qty(items, n)
  {
    var r := RemoveAt(items, k);
    RemoveAtValid(items, k);
    RemoveAtIndex(items, k);
    var j := IndexOf(items, n);
    if j >= 0 && j != k {
      var j' := if j < k then j else j - 1;
      assert r[j'] == items[j];
      QtyAt(r, j');
    } else if j < 0 {
      assert forall i :: 0 <= i < |r| ==> r[i].name != n;
    }
  }

  lemma RemoveNameValid(items: seq<Item>, x: string)
    requires ValidInventory(items)
    ensures ValidInventory(RemoveName(items, x))
  {
    var k := IndexOf(items, x);
    if k >= 0 && items[k].quantity <= 1 {
      RemoveAtValid(items, k);
    }
  }

  lemma RemoveNameQtyOf(items: seq<Item>, x: string, n: string)
    requires ValidInventory(items)
    ensures Qty(RemoveName(items, x), n) == if n == x then Max0(Qty(items, n) - 1) else Qty(items, n)
  {
    var k := IndexOf(items, x);
    if k >= 0 {
      if items[k].quantity > 1 {
        QtyBump(items, k, -1, n);
      } else {
        RemoveAtQty(items, k, n);
      }
    }
  }

  /** Unstacking keeps the invariant and takes one off the removed name, never going below 0. */
  lemma RemoveNameQty(items: seq<Item>, x: string)
    requires ValidInventory(items)
    ensures ValidInventory(RemoveName(items, x))
    ensures forall n :: Qty(RemoveName(items, x), n) == if n == x then Max0(Qty(items, n) - 1) else Qty(items, n)
  {
    RemoveNameValid(items, x);
    forall n ensures Qty(RemoveName(items, x), n) == if n == x then Max0(Qty(items, n) - 1) else Qty(items, n) {
      RemoveNameQtyOf(items, x, n);
    }
  }

  /** `itemsAdd` as a whole: quantities rise by how often each name is listed; a name listed twice stacks twice. */
  lemma {:induction false} AddAllQty(items: seq<Item>, names: seq<string>)
    requires ValidInventory(items)
    ensures ValidInventory(AddAll(items, names))
    ensures forall n :: Qty(AddAll(items, names), n) == Qty(items, n) + Count(names, n)
  {
    if |names| > 0 {
      var init := names[..|names| - 1];
      assert names == init + [names[|names| - 1]];
      AddAllQty(items, init);
      AddNameQty(AddAll(items, init), names[|names| - 1]);
    }
  }

  /** `itemsRemove` as a whole: quantities fall by how often each name is listed, bottoming out at 0 (entry gone). */
  lemma {:induction false} RemoveAllQty(items: seq<Item>, names: seq<string>)
    requires ValidInventory(items)
    ensures ValidInventory(RemoveAll(items, names))
    ensures forall n :: Qty(RemoveAll(items, names), n) == Max0(Qty(items, n) - Count(names, n))
  {
    if |names| > 0 {
      var init := names[..|names| - 1];
      assert names == init + [names[|names| - 1]];
      RemoveAllQty(items, init);
      RemoveNameQty(RemoveAll(items, init), names[|names| - 1]);
    }
  }

  /** An entry created by adding a name: listed, classified from its name, no bonuses. */
  predicate Created(it: Item, names: seq<string>) {
    it.name in names && it.kind == Classify(it.name) && it.atkBonus.None? && it.defBonus.None?
  }

  /** One add keeps the entries in place, quantities aside, and may append the entry created from the name. */
  lemma AddNameShape(items: seq<Item>, x: string)
    ensures var r := AddName(items, x);
      && |items| <= |r| <= |items| + 1
      && (forall i :: 0 <= i < |items| ==> r[i] == items[i].(quantity := r[i].quantity))
      && (|r| > |items| ==> r[|items|] == NewItem(x))
  {
  }

  /**
   * Adding keeps every existing entry in place with only its quantity
   * changed, and appends entries created from listed names: classified
   * from the name, without bonuses.
   */
  lemma {:induction false} AddAllShape(items: seq<Item>, names: seq<string>)
    ensures var r := AddAll(items, names);
      && |items| <= |r|
      && (forall i :: 0 <= i < |items| ==> r[i] == items[i].(quantity := r[i].quantity))
      && (forall i :: |items| <= i < |r| ==> Created(r[i], names))
  {
    if |names| > 0 {
      var init := names[..|names| - 1];
      var x := names[|names| - 1];
      var p := AddAll(items, init);
      AddAllShape(items, init);
      AddNameShape(p, x);
      var r := AddName(p, x);
      assert forall y :: y in init ==> y in names;
      forall i | |items| <= i < |r| ensures Created(r[i], names) {
        if i < |p| {
          assert Created(p[i], init);
          assert r[i] == p[i].(quantity := r[i].quantity);
        }
      }
    }
  }

  /** An item as stored by an older save: a bare name, or a record whose `quantity` may be missing. */
  datatype SavedItem =
    | BareName(name: string)
    | SavedEntry(name: string, quantity: Option<int>, atkBonus: Option<int>, defBonus: Option<int>)

  /** The `items` mapping of `loadInitialState`: the stored type is ignored and re-derived from the name. */
  function Upgrade(saved: SavedItem): (item: Item)
    ensures item.name == saved.name && item.kind == Classify(saved.name)
    ensures saved.BareName? ==> item.quantity == 1 && item.atkBonus.None? && item.defBonus.None?
    ensures saved.SavedEntry? ==>
      item.quantity == saved.quantity.GetOr(1) && item.atkBonus == saved.atkBonus && item.defBonus == saved.defBonus
  {
    match saved
    case BareName(name) => NewItem(name)
    case SavedEntry(name, q, atk, def) => Item(name, q.GetOr(1), Classify(name), atk, def)
  }

  /** What a save stores for an entry. */
  function Saved(item: Item): SavedItem {
    SavedEntry(item.name, Some(item.quantity), item.atkBonus, item.defBonus)
  }

  /** Saving and loading again gives the entry back exactly when its type agrees with the classifier. */
  lemma UpgradeRoundTrip(item: Item)
    ensures Upgrade(Saved(item)) == item <==> item.kind == Classify(item.name)
  {
  }
}
