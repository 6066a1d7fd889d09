/**
 * One turn of the current hook: `applyDeltasAndItems` applied to the
 * previous state, and `computeAchievements` on a finished run.
 */
module Turn {
  import opened Wrappers
  import opened Types
  import opened Reply
  import opened TurnDeltas
  import opened Inventory
  import GameConfig
  import Text

  const MaxTurnNotice := "최대 턴에 도달했습니다. 엔딩을 기록합니다."
  const SurvivedMark := "highlight"

  /** The turn survives when the summed hp change leaves hp above 0. */
  predicate Survives(prev: GameState, ds: seq<Delta>) {
    prev.hp + SumOf(ds, "hp") > 0
  }

  /** This turn ends the run: it survived and the turn counter reached a positive turn limit. */
  predicate ReachesMax(prev: GameState, ds: seq<Delta>) {
    Survives(prev, ds) && prev.maxTurns > 0 && prev.survivalTurns + 1 >= prev.maxTurns
  }

  /**
   * The state `applyDeltasAndItems` hands back for the previous state:
   * stat totals added, adds stacked before removes are taken off, the
   * turn counted when hp stays above 0, the HUD history extended and
   * capped, and the run completed when the turn limit is reached.
   */
  function ApplyTurn(prev: GameState, ds: seq<Delta>, adds: seq<string>, removes: seq<string>): GameState {
    var dHp, dAtk, dMp := SumOf(ds, "hp"), SumOf(ds, "atk"), SumOf(ds, "mp");
    var hud := Cap(HudNotes(ds, adds, removes) + prev.hudNotes);
    var over := !Survives(prev, ds);
    var reached := ReachesMax(prev, ds);
    prev.(
      hp := Max0(prev.hp + dHp),
      atk := prev.atk + dAtk,
      mp := prev.mp + dMp,
      items := RemoveAll(AddAll(prev.items, adds), removes),
      survivalTurns := if over then prev.survivalTurns else prev.survivalTurns + 1,
      lastSurvivalTurn := if over then prev.lastSurvivalTurn else SurvivedMark,
      hudNotes := if reached then Cap([MaxTurnNotice] + hud) else hud,
      isGameOver := over,
      lastDelta := StatTriple(dHp, dAtk, dMp),
      isRunComplete := reached || prev.isRunComplete)
  }

  /** The `itemsAdd.forEach` loop: stack onto the entry `find` returns, or push a new entry. */
  method AddItems(items0: seq<Item>, adds: seq<string>) returns (items: seq<Item>)
    ensures items == AddAll(items0, adds)
  {
    items := items0;
    for i := 0 to |adds|
      invariant items == AddAll(items0, adds[..i])
    {
      assert adds[..i + 1][..i] == adds[..i];
      ghost var before := items;
      var k := FindIndex(items, adds[i]);
      if k >= 0 {
        items := items[k := items[k].(quantity := items[k].quantity + 1)];
        AddNameStacks(before, adds[i], k);
      } else {
        items := items + [NewItem(adds[i])];
        AddNameAppends(before, adds[i]);
      }
    }
    assert adds[..|adds|] == adds;
  }

  /** The `itemsRemove.forEach` loop: decrement the entry `findIndex` returns, or splice it out at quantity 1. */
  method RemoveItems(items0: seq<Item>, removes: seq<string>) returns (items: seq<Item>)
    ensures items == RemoveAll(items0, removes)
  {
    items := items0;
    for i := 0 to |removes|
      invariant items == RemoveAll(items0, removes[..i])
    {
      assert removes[..i + 1][..i] == removes[..i];
      var k := FindIndex(items, removes[i]);
      if k >= 0 {
        if items[k].quantity > 1 {
          items := items[k := items[k].(quantity := items[k].quantity - 1)];
        } else {
          items := items[..k] + items[k + 1..];
        }
      }
    }
    assert removes[..|removes|] == removes;
  }

  /** `applyDeltasAndItems`' state update, step by step as the source performs it. */
  method ApplyDeltasAndItems(prev: GameState, ds: seq<Delta>, adds: seq<string>, removes: seq<string>)
    returns (next: GameState)
    ensures next == ApplyTurn(prev, ds, adds, removes)
  {
    var newNotes := GenerateHudNotes(ds, adds, removes);
    var newHud := Cap(newNotes + prev.hudNotes);
    var turns := prev.survivalTurns;
    var mark := prev.lastSurvivalTurn;
    var dHp, dAtk, dMp := SumDeltas(ds);
    var hp, atk, mp := prev.hp + dHp, prev.atk + dAtk, prev.mp + dMp;
    var items := AddItems(prev.items, adds);
    items := RemoveItems(items, removes);

    var over := hp <= 0;
    if !over {
      turns := turns + 1;
      mark := SurvivedMark;
    }
    var reached := !over && prev.maxTurns > 0 && turns >= prev.maxTurns;
    assert over == !Survives(prev, ds) && reached == ReachesMax(prev, ds);
    assert newHud == Cap(HudNotes(ds, adds, removes) + prev.hudNotes);
    next := prev.(
      hp := if hp < 0 then 0 else hp,
      atk := atk,
      mp := mp,
      items := items,
      survivalTurns := turns,
      lastSurvivalTurn := mark,
      hudNotes := if reached then Cap([MaxTurnNotice] + newHud) else newHud,
      isGameOver := over,
      lastDelta := StatTriple(dHp, dAtk, dMp),
      isRunComplete := reached || prev.isRunComplete);
    ghost var spec := ApplyTurn(prev, ds, adds, removes);
    assert next.hp == spec.hp;
    assert next.items == spec.items;
    assert next.hudNotes == spec.hudNotes;
    assert next.lastDelta == spec.lastDelta;
    assert next.survivalTurns == spec.survivalTurns;
    assert next.atk == spec.atk && next.mp == spec.mp;
    assert next.lastSurvivalTurn == spec.lastSurvivalTurn;
    assert next.isGameOver == spec.isGameOver && next.isRunComplete == spec.isRunComplete;
  }

  /**
   * Stats: each stat moves by its total, hp is clamped at 0, and the
   * game is over exactly when the unclamped hp reaches 0 or below, in
   * which case hp shows 0.
   */
  lemma TurnStats(prev: GameState, ds: seq<Delta>, adds: seq<string>, removes: seq<string>)
    ensures var next := ApplyTurn(prev, ds, adds, removes);
      && next.hp >= 0
      && (next.isGameOver <==> prev.hp + SumOf(ds, "hp") <= 0)
      && (next.isGameOver ==> next.hp == 0)
      && (!next.isGameOver ==> next.hp == prev.hp + SumOf(ds, "hp"))
      && next.atk == prev.atk + SumOf(ds, "atk")
      && next.mp == prev.mp + SumOf(ds, "mp")
      && next.lastDelta == StatTriple(SumOf(ds, "hp"), SumOf(ds, "atk"), SumOf(ds, "mp"))
  {
  }

  /** A turn is counted, and marked for the HUD, exactly when the player is still alive after it. */
  lemma TurnCounting(prev: GameState, ds: seq<Delta>, adds: seq<string>, removes: seq<string>)
    ensures var next := ApplyTurn(prev, ds, adds, removes);
      && (next.hp > 0 <==> next.survivalTurns == prev.survivalTurns + 1)
      && (next.hp == 0 <==> next.survivalTurns == prev.survivalTurns)
      && (next.hp > 0 ==> next.lastSurvivalTurn == SurvivedMark)
      && (next.hp == 0 ==> next.lastSurvivalTurn == prev.lastSurvivalTurn)
  {
  }

  /**
   * Completion is sticky, and a run becomes complete exactly when a
   * surviving turn brings the counter to a positive turn limit; a turn
   * that ends the game never completes the run.
   */
  lemma TurnCompletion(prev: GameState, ds: seq<Delta>, adds: seq<string>, removes: seq<string>)
    ensures var next := ApplyTurn(prev, ds, adds, removes);
      && (prev.isRunComplete ==> next.isRunComplete)
      && (next.isRunComplete <==>
            (prev.isRunComplete || (!next.isGameOver && prev.maxTurns > 0 && next.survivalTurns >= prev.maxTurns)))
      && (next.isGameOver ==> next.isRunComplete == prev.isRunComplete)
  {
  }

  /**
   * Inventory: the entry invariant is kept, and each name's quantity
   * rises by its listed additions and falls by its listed removals,
   * additions counted first, never below 0.
   */
  lemma TurnInventory(prev: GameState, ds: seq<Delta>, adds: seq<string>, removes: seq<string>)
    requires ValidInventory(prev.items)
    ensures var next := ApplyTurn(prev, ds, adds, removes);
      && ValidInventory(next.items)
      && forall n :: Qty(next.items, n) == Max0(Qty(prev.items, n) + Count(adds, n) - Count(removes, n))
  {
    var added := AddAll(prev.items, adds);
    AddAllQty(prev.items, adds);
    RemoveAllQty(added, removes);
  }

  /**
   * The HUD history: at most six lines; the new lines come first, newest
   * turn on top, followed by the older history; the turn-limit notice
   * sits above them on the turn that completes the run.
   */
  lemma TurnHud(prev: GameState, ds: seq<Delta>, adds: seq<string>, removes: seq<string>)
    ensures var next := ApplyTurn(prev, ds, adds, removes);
      var lines := HudNotes(ds, adds, removes);
      && |next.hudNotes| <= HistoryLimit
      && (ReachesMax(prev, ds) ==> next.hudNotes == Cap([MaxTurnNotice] + lines + prev.hudNotes))
      && (!ReachesMax(prev, ds) ==> next.hudNotes == Cap(lines + prev.hudNotes))
  {
    var lines := HudNotes(ds, adds, removes);
    if ReachesMax(prev, ds) {
      CapPrepend([MaxTurnNotice], lines + prev.hudNotes);
      assert [MaxTurnNotice] + (lines + prev.hudNotes) == [MaxTurnNotice] + lines + prev.hudNotes;
    }
  }

  /** Only the stats, items, turn counter and mark, HUD, game-over flag, last delta and completion change. */
  lemma TurnFrame(prev: GameState, ds: seq<Delta>, adds: seq<string>, removes: seq<string>)
    ensures var next := ApplyTurn(prev, ds, adds, removes);
      next.(hp := prev.hp, atk := prev.atk, mp := prev.mp, items := prev.items,
            survivalTurns := prev.survivalTurns, lastSurvivalTurn := prev.lastSurvivalTurn,
            hudNotes := prev.hudNotes, isGameOver := prev.isGameOver, lastDelta := prev.lastDelta,
            isRunComplete := prev.isRunComplete) == prev
  {
  }

  /** A quiet turn — no deltas, no items — counts the turn and leaves stats and items alone (while hp is positive). */
  lemma QuietTurn(prev: GameState)
    requires prev.hp > 0
    ensures var next := ApplyTurn(prev, [], [], []);
      && next.hp == prev.hp && next.atk == prev.atk && next.mp == prev.mp
      && next.items == prev.items
      && next.survivalTurns == prev.survivalTurns + 1
      && !next.isGameOver
  {
  }

  /** Turn 4 of a 5-turn run survived: the run completes and the notice tops the HUD. */
  lemma FinalTurnCompletes(prev: GameState, ds: seq<Delta>, adds: seq<string>, removes: seq<string>)
    requires prev.maxTurns == 5 && prev.survivalTurns == 4 && !prev.isRunComplete
    requires prev.hp + SumOf(ds, "hp") > 0
    ensures var next := ApplyTurn(prev, ds, adds, removes);
      && next.isRunComplete && !next.isGameOver && next.survivalTurns == 5
      && next.hudNotes[0] == MaxTurnNotice
  {
  }

  /** A lethal turn: hp shows 0, the game is over, the counter stays and the run is not completed by it. */
  lemma LethalTurn(prev: GameState, ds: seq<Delta>, adds: seq<string>, removes: seq<string>)
    requires !prev.isRunComplete && prev.hp + SumOf(ds, "hp") <= 0
    ensures var next := ApplyTurn(prev, ds, adds, removes);
      && next.hp == 0 && next.isGameOver && next.survivalTurns == prev.survivalTurns && !next.isRunComplete
  {
  }

  /** `lastDelta` and the turn mark go back to rest three seconds after a turn. */
  function ClearLastDelta(s: GameState): (r: GameState)
    ensures r.lastDelta == StatTriple(0, 0, 0) && r.lastSurvivalTurn == ""
    ensures r.(lastDelta := s.lastDelta, lastSurvivalTurn := s.lastSurvivalTurn) == s
  {
    s.(lastDelta := StatTriple(0, 0, 0), lastSurvivalTurn := "")
  }

  /** Clearing twice is clearing once, so a late timer firing after another turn's timer does no harm. */
  lemma ClearLastDeltaIdempotent(s: GameState)
    ensures ClearLastDelta(ClearLastDelta(s)) == ClearLastDelta(s)
  {
  }
}
