/**
 * `computeAchievements`: the badges a finished run earns, checked in a
 * fixed order, with a consolation badge when none is earned.
 */
module Achievements {
  import opened Wrappers
  import opened Text
  import opened Types

  const IronText := "철인: 체력을 100 이상 유지했다"
  const ArmedText := "무장완료: 강력한 무기를 확보했다"
  const StockText := "비축왕: 음식 아이템을 3개 이상 보유했다"
  const EnduredPrefix := "끝까지 버텨냈다: "
  const EnduredSuffix := "턴 생존 달성"
  const WeaponBadgePrefix := "무기 장착: "
  const ArmorBadgePrefix := "방어구 장착: "
  const FallbackText := "소소한 생존자: 평범하지만 꾸준히 버텼다"
  const BadgeCount := 6

  /** `items.some(i => i.type === "weapon" && (i.atkBonus ?? 0) >= 10)`. */
  predicate StrongWeaponHeld(items: seq<Item>) {
    exists i :: 0 <= i < |items| && items[i].kind == Weapon && items[i].atkBonus.GetOr(0) >= 10
  }

  /** `items.filter(i => i.type === "food").length`: food entries, not food quantities. */
  function FoodEntries(items: seq<Item>): (n: nat)
    ensures n <= |items|
  {
    if |items| == 0 then 0 else FoodEntries(items[..|items| - 1]) + (if items[|items| - 1].kind == Food then 1 else 0)
  }

  /** Whether badge `i` (in the order the source checks them) is earned. */
  predicate Holds(s: GameState, i: nat) {
    match i
    case 0 => s.hp >= 100
    case 1 => StrongWeaponHeld(s.items)
    case 2 => FoodEntries(s.items) >= 3
    case 3 => s.survivalTurns >= s.maxTurns
    case 4 => s.equippedWeapon.Some?
    case 5 => s.equippedArmor.Some?
    case _ => false
  }

  /** The text of badge `i`. */
  function BadgeText(s: GameState, i: nat): string {
    match i
    case 0 => IronText
    case 1 => ArmedText
    case 2 => StockText
    case 3 => EnduredPrefix + IntToString(s.maxTurns) + EnduredSuffix
    case 4 => WeaponBadgePrefix + (if s.equippedWeapon.Some? then s.equippedWeapon.value.name else "")
    case _ => ArmorBadgePrefix + (if s.equippedArmor.Some? then s.equippedArmor.value.name else "")
  }

  /** The earned badges among the first `n`, in order. */
  function Earned(s: GameState, n: nat): seq<string>
    requires n <= BadgeCount
  {
    if n == 0 then [] else Earned(s, n - 1) + (if Holds(s, n - 1) then [BadgeText(s, n - 1)] else [])
  }

  /** The reference list: the earned badges in order, or the fallback when there are none. */
  function Achievements(s: GameState): seq<string> {
    var e := Earned(s, BadgeCount);
    if e == [] then [FallbackText] else e
  }

  /** `computeAchievements`: each `if (…) list.push(…)` appends one badge or nothing, in the source's order, then the first six are kept. */
  method ComputeAchievements(s: GameState) returns (a: seq<string>)
    ensures a == Achievements(s)
  {
    a := [];
    a := a + if s.hp >= 100 then [IronText] else [];
    a := a + if StrongWeaponHeld(s.items) then [ArmedText] else [];
    a := a + if FoodEntries(s.items) >= 3 then [StockText] else [];
    a := a + if s.survivalTurns >= s.maxTurns then [EnduredPrefix + IntToString(s.maxTurns) + EnduredSuffix] else [];
    a := a + if s.equippedWeapon.Some? then [WeaponBadgePrefix + s.equippedWeapon.value.name] else [];
    a := a + if s.equippedArmor.Some? then [ArmorBadgePrefix + s.equippedArmor.value.name] else [];
    EarnedInOrder(s);
    ghost var e := a;
    if |a| == 0 { a := a + [FallbackText]; }
    FallbackFits(s, e, a);
    var len := if |a| < BadgeCount then |a| else BadgeCount;
    a := a[..len];
  }

  /** The six checks of `computeAchievements`, written out in order, build exactly the earned list. */
  lemma EarnedInOrder(s: GameState)
    ensures Earned(s, BadgeCount)
         == [] + (if s.hp >= 100 then [IronText] else [])
               + (if StrongWeaponHeld(s.items) then [ArmedText] else [])
               + (if FoodEntries(s.items) >= 3 then [StockText] else [])
               + (if s.survivalTurns >= s.maxTurns then [EnduredPrefix + IntToString(s.maxTurns) + EnduredSuffix] else [])
               + (if s.equippedWeapon.Some? then [WeaponBadgePrefix + s.equippedWeapon.value.name] else [])
               + (if s.equippedArmor.Some? then [ArmorBadgePrefix + s.equippedArmor.value.name] else [])
  {
    assert Earned(s, 1) == if s.hp >= 100 then [IronText] else [];
    assert Earned(s, 3) == Earned(s, 2) + if FoodEntries(s.items) >= 3 then [StockText] else [];
    assert Earned(s, 5) == Earned(s, 4) + if s.equippedWeapon.Some? then [WeaponBadgePrefix + s.equippedWeapon.value.name] else [];
  }

  /** After the fallback push there are at most six entries, so `slice(0, 6)` keeps the reference list whole. */
  lemma FallbackFits(s: GameState, earned: seq<string>, a: seq<string>)
    requires earned == Earned(s, BadgeCount)
    requires a == if |earned| == 0 then earned + [FallbackText] else earned
    ensures |a| <= BadgeCount && a == Achievements(s) && a[..|a|] == a
  {
    EarnedBound(s, BadgeCount);
  }

  /** The first two characters tell the seven texts apart. */
  function Tag(t: string): string {
    if |t| >= 2 then t[..2] else t
  }

  lemma BadgeTag(s: GameState, i: nat)
    requires i < BadgeCount
    ensures Tag(BadgeText(s, i)) == ["철인", "무장", "비축", "끝까", "무기", "방어"][i]
  {
    var t := BadgeText(s, i);
    if i == 3 {
      assert t[..2] == EnduredPrefix[..2];
    } else if i == 4 {
      assert t[..2] == WeaponBadgePrefix[..2];
    } else if i == 5 {
      assert t[..2] == ArmorBadgePrefix[..2];
    }
  }

  /** Different badges have different texts, and none is the fallback. */
  lemma BadgesDistinct(s: GameState, i: nat, j: nat)
    requires i < BadgeCount && j < BadgeCount
    ensures BadgeText(s, i) != FallbackText
    ensures i != j ==> BadgeText(s, i) != BadgeText(s, j)
  {
    BadgeTag(s, i);
    BadgeTag(s, j);
    assert Tag(FallbackText) == "소소";
  }

  /** A text is among the first `n` earned badges exactly when one of them is earned with that text. */
  lemma {:induction false} EarnedMembers(s: GameState, n: nat, x: string)
    requires n <= BadgeCount
    ensures x in Earned(s, n) <==> exists j :: 0 <= j < n && Holds(s, j) && BadgeText(s, j) == x
  {
    if n > 0 {
      EarnedMembers(s, n - 1, x);
    }
  }

  lemma {:induction false} EarnedBound(s: GameState, n: nat)
    requires n <= BadgeCount
    ensures |Earned(s, n)| <= n
    ensures Earned(s, n) == [] <==> forall j :: 0 <= j < n ==> !Holds(s, j)
  {
    if n > 0 {
      EarnedBound(s, n - 1);
    }
  }

  /**
   * The list is never empty and has at most six entries (so the source's
   * `slice(0, 6)` never cuts a badge), and the fallback is the whole list
   * exactly when no badge is earned.
   */
  lemma AchievementsShape(s: GameState)
    ensures 1 <= |Achievements(s)| <= BadgeCount
    ensures Achievements(s) == [FallbackText] <==> forall j :: 0 <= j < BadgeCount ==> !Holds(s, j)
    ensures FallbackText in Achievements(s) <==> forall j :: 0 <= j < BadgeCount ==> !Holds(s, j)
  {
    EarnedBound(s, BadgeCount);
    EarnedMembers(s, BadgeCount, FallbackText);
    if j :| 0 <= j < BadgeCount && Holds(s, j) {
      BadgesDistinct(s, j, j);
      forall k | 0 <= k < BadgeCount
        ensures BadgeText(s, k) != FallbackText
      {
        BadgesDistinct(s, k, k);
      }
      assert Earned(s, BadgeCount) != [];
    }
  }

  /** Each badge's text appears exactly when its condition holds. */
  lemma AchievementsMembership(s: GameState, i: nat)
    requires i < BadgeCount
    ensures BadgeText(s, i) in Achievements(s) <==> Holds(s, i)
  {
    EarnedMembers(s, BadgeCount, BadgeText(s, i));
    BadgesDistinct(s, i, i);
    forall j | 0 <= j < BadgeCount && BadgeText(s, j) == BadgeText(s, i)
      ensures j == i
    {
      BadgesDistinct(s, i, j);
    }
  }
}
