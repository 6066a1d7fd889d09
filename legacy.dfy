/**
 * The older single-file app: the same reply extraction and HUD lines as
 * the current hook, but an inventory of bare names edited by filtering
 * and appending, no turn limit, and fixed reset values.
 */
module LegacyApp {
  import opened Wrappers
  import opened Json
  import opened Reply
  import opened TurnDeltas
  import opened Types
  import GameConfig
  import Turn

  /** The older app's game state, restricted to the members the turn logic touches. */
  datatype LegacyState = LegacyState(
    story: string,
    userAction: string,
    isGameOver: bool,
    hp: int,
    atk: int,
    mp: int,
    items: seq<string>,
    survivalTurns: int,
    lastDelta: StatTriple,
    lastSurvivalTurn: string,
    hudNotes: seq<string>,
    recommendedAction: string)

  const StartingNames: seq<string> := [GameConfig.SwordName, GameConfig.BreadName]

  /** The older app's own messages; they read as the current hook's. */
  const NoKeyStory := "환경변수 VITE_GEMINI_API_KEY가 설정되지 않았습니다."
  const ActionErrorStory := "이야기 생성 중 오류가 발생했습니다."
  const ActionFallbackStory := "이야기 생성 실패"
  const ScenarioErrorStory := "상황 생성 중 오류가 발생했습니다."
  const ScenarioFallbackStory := "상황 생성 실패"

  /** The state used without a save, and the state `goHome` installs. */
  const LegacyDefault: LegacyState :=
    LegacyState("", "", false, 100, 10, 30, StartingNames, 0, StatTriple(0, 0, 0), "", [], "")

  /** What the older reply reader returns: the same fields, without music or highlights. */
  datatype LegacyReply = LegacyReply(
    story: string, deltas: seq<Delta>, itemsAdd: seq<string>, itemsRemove: seq<string>, recommendedAction: string)

  /**
   * The older `askStorySubjectAndDeltas` reply reading. Its statements are
   * those of the current hook for the fields it reads, so it fails and
   * defaults exactly as the current extraction does.
   */
  function ExtractReply(text: string, parse: string -> Option<Json>): (r: Result<LegacyReply, ExtractError>)
    ensures r.Ok? <==> Extract(text, parse).Ok?
    ensures r.Ok? ==>
      var f := Extract(text, parse).value;
      r.value == LegacyReply(f.story, f.deltas, f.itemsAdd, f.itemsRemove, f.recommendedAction)
    ensures parse(Candidate(Text.Trim(text))).None? ==> r == Ok(LegacyReply("", [], [], [], ""))
  {
    match Extract(text, parse)
    case Err(e) => Err(e)
    case Ok(f) => Ok(LegacyReply(f.story, f.deltas, f.itemsAdd, f.itemsRemove, f.recommendedAction))
  }

  /** `items.filter(x => !removes.includes(x))`. */
  function Without(items: seq<string>, removes: seq<string>): (r: seq<string>)
    ensures |r| <= |items|
  {
    if |items| == 0 then []
    else Without(items[..|items| - 1], removes) + (if items[|items| - 1] in removes then [] else [items[|items| - 1]])
  }

  /** The older inventory edit: every entry equal to a removed name goes, then the added names are appended as given. */
  function EditItems(items: seq<string>, adds: seq<string>, removes: seq<string>): seq<string> {
    Without(items, removes) + adds
  }

  lemma {:induction false} WithoutCount(items: seq<string>, removes: seq<string>, x: string)
    ensures multiset(Without(items, removes))[x] == if x in removes then 0 else multiset(items)[x]
  {
    if |items| > 0 {
      var init, last := items[..|items| - 1], items[|items| - 1];
      assert items == init + [last];
      assert multiset(items) == multiset(init) + multiset{last};
      WithoutCount(init, removes, x);
      assert multiset(Without(items, removes)) == multiset(Without(init, removes)) + multiset(if last in removes then [] else [last]);
    }
  }

  /**
   * How often a name is held after the edit: none of its old copies
   * survive a removal, and each listed addition adds one copy; so a name
   * both removed and added is held after the turn.
   */
  lemma EditItemsCount(items: seq<string>, adds: seq<string>, removes: seq<string>, x: string)
    ensures multiset(EditItems(items, adds, removes))[x] == (if x in removes then 0 else multiset(items)[x]) + multiset(adds)[x]
    ensures x in EditItems(items, adds, removes) <==> (x in items && x !in removes) || x in adds
  {
    WithoutCount(items, removes, x);
    assert multiset(EditItems(items, adds, removes)) == multiset(Without(items, removes)) + multiset(adds);
  }

  /** The older `applyDeltasAndItems` update of the previous state. */
  function LegacyTurn(prev: LegacyState, ds: seq<Delta>, adds: seq<string>, removes: seq<string>): LegacyState {
    var dHp, dAtk, dMp := SumOf(ds, "hp"), SumOf(ds, "atk"), SumOf(ds, "mp");
    var over := prev.hp + dHp <= 0;
    prev.(
      hp := if prev.hp + dHp < 0 then 0 else prev.hp + dHp,
      atk := prev.atk + dAtk,
      mp := prev.mp + dMp,
      items := EditItems(prev.items, adds, removes),
      survivalTurns := if over then prev.survivalTurns else prev.survivalTurns + 1,
      lastSurvivalTurn := if over then prev.lastSurvivalTurn else Turn.SurvivedMark,
      hudNotes := Cap(HudNotes(ds, adds, removes) + prev.hudNotes),
      isGameOver := over,
      lastDelta := StatTriple(dHp, dAtk, dMp))
  }

  /** The older `applyDeltasAndItems` as it runs: the summing loop, the HUD lines, then filter and append. */
  method ApplyDeltasAndItems(prev: LegacyState, ds: seq<Delta>, adds: seq<string>, removes: seq<string>)
    returns (next: LegacyState)
    ensures next == LegacyTurn(prev, ds, adds, removes)
  {
    var items := prev.items;
    var newNotes := GenerateHudNotes(ds, adds, removes);
    var newHud := Cap(newNotes + prev.hudNotes);
    var turns := prev.survivalTurns;
    var mark := prev.lastSurvivalTurn;
    var dHp, dAtk, dMp := SumDeltas(ds);
    var hp, atk, mp := prev.hp + dHp, prev.atk + dAtk, prev.mp + dMp;
    items := if |removes| > 0 then Without(items, removes) else items;
    items := if |adds| > 0 then items + adds else items;
    EditInSteps(prev.items, adds, removes);
    var over := hp <= 0;
    if !over {
      turns := turns + 1;
      mark := Turn.SurvivedMark;
    }
    LegacyTurnOf(prev, ds, adds, removes, dHp, dAtk, dMp, items, newHud, turns, mark);
    next := prev.(hp := if hp < 0 then 0 else hp, atk := atk, mp := mp, items := items, survivalTurns := turns,
                  lastSurvivalTurn := mark, hudNotes := newHud, isGameOver := over,
                  lastDelta := StatTriple(dHp, dAtk, dMp));
  }

  /** The older turn assembled from its parts: the three sums, the edited list, the capped HUD and the counted turn. */
  lemma LegacyTurnOf(prev: LegacyState, ds: seq<Delta>, adds: seq<string>, removes: seq<string>,
                     dHp: int, dAtk: int, dMp: int, items: seq<string>, hud: seq<string>,
                     turns: int, mark: string)
    requires dHp == SumOf(ds, "hp") && dAtk == SumOf(ds, "atk") && dMp == SumOf(ds, "mp")
    requires items == EditItems(prev.items, adds, removes) && hud == Cap(HudNotes(ds, adds, removes) + prev.hudNotes)
    requires turns == if prev.hp + dHp <= 0 then prev.survivalTurns else prev.survivalTurns + 1
    requires mark == if prev.hp + dHp <= 0 then prev.lastSurvivalTurn else Turn.SurvivedMark
    ensures LegacyTurn(prev, ds, adds, removes)
         == prev.(hp := if prev.hp + dHp < 0 then 0 else prev.hp + dHp, atk := prev.atk + dAtk, mp := prev.mp + dMp,
                  items := items, survivalTurns := turns, lastSurvivalTurn := mark, hudNotes := hud,
                  isGameOver := prev.hp + dHp <= 0, lastDelta := StatTriple(dHp, dAtk, dMp))
  {
  }

  /** Skipping the filter when nothing is removed, and the append when nothing is added, changes nothing. */
  lemma EditInSteps(items: seq<string>, adds: seq<string>, removes: seq<string>)
    ensures var kept := if |removes| > 0 then Without(items, removes) else items;
      (if |adds| > 0 then kept + adds else kept) == EditItems(items, adds, removes)
  {
    if |removes| == 0 {
      WithoutNothing(items, removes);
    }
  }

  lemma {:induction false} WithoutNothing(items: seq<string>, removes: seq<string>)
    requires removes == []
    ensures Without(items, removes) == items
  {
    if |items| > 0 {
      WithoutNothing(items[..|items| - 1], removes);
    }
  }

  /**
   * The older turn's stats and counting: hp clamped at 0, atk and mp
   * plain sums, the sums recorded, the game over exactly at hp 0 or
   * below, the turn counted and marked exactly otherwise, and the new HUD
   * lines on top of the old ones, cut to six.
   */
  lemma LegacyTurnFacts(prev: LegacyState, ds: seq<Delta>, adds: seq<string>, removes: seq<string>)
    ensures var next := LegacyTurn(prev, ds, adds, removes);
      && next.hp >= 0
      && (next.isGameOver <==> prev.hp + SumOf(ds, "hp") <= 0)
      && (!next.isGameOver ==> next.hp == prev.hp + SumOf(ds, "hp"))
      && next.atk == prev.atk + SumOf(ds, "atk") && next.mp == prev.mp + SumOf(ds, "mp")
      && next.lastDelta == StatTriple(SumOf(ds, "hp"), SumOf(ds, "atk"), SumOf(ds, "mp"))
      && next.survivalTurns == prev.survivalTurns + (if next.isGameOver then 0 else 1)
      && next.hudNotes == Cap(HudNotes(ds, adds, removes) + prev.hudNotes)
      && |next.hudNotes| <= HistoryLimit
      && (!next.isGameOver ==> next.lastSurvivalTurn == Turn.SurvivedMark)
      && (next.isGameOver ==> next.lastSurvivalTurn == prev.lastSurvivalTurn)
      && next.story == prev.story && next.userAction == prev.userAction
      && next.recommendedAction == prev.recommendedAction
  {
  }

  /** The three-second timer after an older turn: the change badges and the turn mark go back to rest, nothing else moves. */
  function ClearLastDelta(s: LegacyState): (r: LegacyState)
    ensures r.lastDelta == StatTriple(0, 0, 0) && r.lastSurvivalTurn == ""
    ensures r.(lastDelta := s.lastDelta, lastSurvivalTurn := s.lastSurvivalTurn) == s
  {
    s.(lastDelta := StatTriple(0, 0, 0), lastSurvivalTurn := "")
  }

  /** The older `submitAction`: it does nothing without a story or after the game is over. */
  function SubmitAction(s: LegacyState, hasApi: bool, answer: Option<string>, parse: string -> Option<Json>): (next: LegacyState)
    ensures !hasApi ==> next == s.(story := NoKeyStory)
    ensures hasApi && (s.story == "" || s.isGameOver) ==> next == s
  {
    if !hasApi then s.(story := NoKeyStory)
    else if s.story == "" || s.isGameOver then s
    else if answer.None? then s.(story := ActionErrorStory)
    else
      match ExtractReply(answer.value, parse)
      case Err(_) => s.(story := ActionErrorStory)
      case Ok(r) =>
        var shown := s.(story := if r.story == "" then ActionFallbackStory else r.story, userAction := "",
                        recommendedAction := r.recommendedAction);
        LegacyTurn(shown, r.deltas, r.itemsAdd, r.itemsRemove)
  }

  /** There is no turn limit: a surviving action always counts a turn, and a dead player stays where they are. */
  lemma LegacyActionCounts(s: LegacyState, answer: Option<string>, parse: string -> Option<Json>)
    requires s.story != "" && !s.isGameOver && answer.Some? && ExtractReply(answer.value, parse).Ok?
    ensures var next := SubmitAction(s, true, answer, parse);
      var r := ExtractReply(answer.value, parse).value;
      && (s.hp + SumOf(r.deltas, "hp") > 0 <==> next.survivalTurns == s.survivalTurns + 1)
      && (next.isGameOver ==> SubmitAction(next, true, answer, parse) == next)
  {
  }

  /** The reset at the start of the older `generateScenario`; `lastDelta` and `userAction` are kept. */
  function ResetRun(s: LegacyState): LegacyState {
    s.(story := "", isGameOver := false, hudNotes := [], survivalTurns := 0, hp := 100, atk := 10, mp := 30,
       items := StartingNames, lastSurvivalTurn := "", recommendedAction := "")
  }

  /** The older opening scene on screen: the reply's story, or the fallback when it is empty, and its suggestion. */
  function OpeningShown(reset: LegacyState, r: LegacyReply): (shown: LegacyState)
    ensures shown.story != "" && (r.story != "" ==> shown.story == r.story)
    ensures shown.recommendedAction == r.recommendedAction
    ensures shown.(story := reset.story, recommendedAction := reset.recommendedAction) == reset
  {
    reset.(story := if r.story == "" then ScenarioFallbackStory else r.story, recommendedAction := r.recommendedAction)
  }

  /**
   * The older `generateScenario`: without a client only the key message;
   * otherwise the reset, then the error story when the call or the reply
   * fails, or the opening scene's turn applied to the reset.
   */
  function GenerateScenario(s: LegacyState, hasApi: bool, answer: Option<string>, parse: string -> Option<Json>): (next: LegacyState)
    ensures !hasApi ==> next == s.(story := NoKeyStory)
    ensures hasApi && (answer.None? || ExtractReply(answer.value, parse).Err?) ==> next == ResetRun(s).(story := ScenarioErrorStory)
    ensures hasApi && answer.Some? && ExtractReply(answer.value, parse).Ok? ==>
      var r := ExtractReply(answer.value, parse).value;
      next == LegacyTurn(OpeningShown(ResetRun(s), r), r.deltas, r.itemsAdd, r.itemsRemove)
  {
    if !hasApi then s.(story := NoKeyStory)
    else
      var reset := ResetRun(s);
      if answer.None? then reset.(story := ScenarioErrorStory)
      else
        match ExtractReply(answer.value, parse)
        case Err(_) => reset.(story := ScenarioErrorStory)
        case Ok(r) => LegacyTurn(OpeningShown(reset, r), r.deltas, r.itemsAdd, r.itemsRemove)
  }

  /** A failed older opening leaves the fresh run under the error story: starting stats and names, no HUD, alive. */
  lemma LegacyScenarioFailed(s: LegacyState, answer: Option<string>, parse: string -> Option<Json>)
    requires answer.None? || ExtractReply(answer.value, parse).Err?
    ensures var next := GenerateScenario(s, true, answer, parse);
      && next.story == ScenarioErrorStory
      && next.hp == 100 && next.atk == 10 && next.mp == 30 && next.items == StartingNames
      && !next.isGameOver && next.hudNotes == [] && next.survivalTurns == 0
      && next.lastDelta == s.lastDelta && next.userAction == s.userAction
  {
    ResetsAgree(s);
  }

  /**
   * A successful older opening is the reset's first turn: the starting
   * stats plus the opening deltas (hp floored at 0), game over exactly
   * when those take hp to 0 or below, the opening turn counted otherwise,
   * the starting names edited by the reply, and only the opening HUD lines.
   */
  lemma LegacyScenarioOpening(s: LegacyState, answer: Option<string>, parse: string -> Option<Json>, r: LegacyReply)
    requires answer.Some? && ExtractReply(answer.value, parse) == Ok(r)
    ensures var next := GenerateScenario(s, true, answer, parse);
      && next.hp == (if 100 + SumOf(r.deltas, "hp") < 0 then 0 else 100 + SumOf(r.deltas, "hp"))
      && next.atk == 10 + SumOf(r.deltas, "atk") && next.mp == 30 + SumOf(r.deltas, "mp")
      && (next.isGameOver <==> 100 + SumOf(r.deltas, "hp") <= 0)
      && next.survivalTurns == (if next.isGameOver then 0 else 1)
      && next.items == EditItems(StartingNames, r.itemsAdd, r.itemsRemove)
      && next.hudNotes == Cap(HudNotes(r.deltas, r.itemsAdd, r.itemsRemove))
      && next.story != ""
  {
    var shown := OpeningShown(ResetRun(s), r);
    assert GenerateScenario(s, true, answer, parse) == LegacyTurn(shown, r.deltas, r.itemsAdd, r.itemsRemove);
    OpeningOnReset(shown, r);
  }

  /** The older turn applied to a fresh run's opening scene. */
  lemma OpeningOnReset(shown: LegacyState, r: LegacyReply)
    requires shown.hp == 100 && shown.atk == 10 && shown.mp == 30 && shown.survivalTurns == 0
    requires shown.items == StartingNames && shown.hudNotes == [] && shown.story != ""
    ensures var next := LegacyTurn(shown, r.deltas, r.itemsAdd, r.itemsRemove);
      && next.hp == (if 100 + SumOf(r.deltas, "hp") < 0 then 0 else 100 + SumOf(r.deltas, "hp"))
      && next.atk == 10 + SumOf(r.deltas, "atk") && next.mp == 30 + SumOf(r.deltas, "mp")
      && (next.isGameOver <==> 100 + SumOf(r.deltas, "hp") <= 0)
      && next.survivalTurns == (if next.isGameOver then 0 else 1)
      && next.items == EditItems(StartingNames, r.itemsAdd, r.itemsRemove)
      && next.hudNotes == Cap(HudNotes(r.deltas, r.itemsAdd, r.itemsRemove))
      && next.story != ""
  {
    assert HudNotes(r.deltas, r.itemsAdd, r.itemsRemove) + shown.hudNotes == HudNotes(r.deltas, r.itemsAdd, r.itemsRemove);
    LegacyTurnFacts(shown, r.deltas, r.itemsAdd, r.itemsRemove);
  }

  /** The older `goHome`: the default state, unconditionally. */
  function GoHome(s: LegacyState): LegacyState {
    LegacyDefault
  }

  /**
   * Both resets start the same run: hp 100, atk 10, mp 30, the two
   * starting names, no turns, no HUD, not over. They differ only in
   * that `generateScenario` keeps `lastDelta` and `userAction`.
   */
  lemma ResetsAgree(s: LegacyState)
    ensures var r := ResetRun(s);
      && r.hp == 100 && r.atk == 10 && r.mp == 30 && r.items == [GameConfig.SwordName, GameConfig.BreadName]
      && r.survivalTurns == 0 && r.hudNotes == [] && !r.isGameOver
      && r.(lastDelta := LegacyDefault.lastDelta, userAction := LegacyDefault.userAction) == GoHome(s)
  {
  }

  /** The older app starts with 30 mp where the current configuration starts with 10; hp and atk agree. */
  lemma LegacyDefaultVersusCurrent()
    ensures LegacyDefault.mp == 30 && GameConfig.DefaultInitialState.mp == 10
    ensures LegacyDefault.hp == GameConfig.DefaultInitialState.hp && LegacyDefault.atk == GameConfig.DefaultInitialState.atk
  {
  }
}
