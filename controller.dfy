/**
 * The run controller of the current hook: the guards and state updates of
 * `submitAction` and `generateScenario`, the ending effect, and `goHome`.
 * The text model is an oracle: `hasApi` says whether a client exists and
 * `answer` is the reply text, `None` when the call throws.
 */
module Run {
  import opened Wrappers
  import opened Text
  import opened Json
  import opened Reply
  import opened TurnDeltas
  import opened Types
  import opened Inventory
  import opened GameConfig
  import opened Turn
  import GenreSelect
  import Achievements

  const NoKeyStory := "환경변수 VITE_GEMINI_API_KEY가 설정되지 않았습니다."
  const ActionErrorStory := "이야기 생성 중 오류가 발생했습니다."
  const ActionFallbackStory := "이야기 생성 실패"
  const ScenarioErrorStory := "상황 생성 중 오류가 발생했습니다."
  const ScenarioFallbackStory := "상황 생성 실패"
  const NoKeyEnding := "엔딩 생성 실패: API 키가 없어 기본 엔딩으로 마감합니다.\n당신은 묵묵히 버텨냈고, 다음 생존을 기약합니다."
  const EndingLoadFailed := "엔딩을 불러오지 못했습니다. 그래도 당신의 생존은 의미 있었습니다."
  const EndingEmptyFallback := "긴 생존 끝에 당신은 잠시 숨을 고른다. 오늘을 버텼다는 사실만으로도 충분했다."

  /** What the text call yields: a failed call when it throws, otherwise the extraction of its text. */
  function Outcome(answer: Option<string>, parse: string -> Option<Json>): Result<Reply, ExtractError> {
    if answer.None? then Err(CallFailed) else Extract(answer.value, parse)
  }

  /** `highlights || {}`. */
  function HighlightsOrEmpty(h: Json): Json {
    if Truthy(h) then h else JObj([])
  }

  /** The `submitAction` guard: there is a story to continue and the run is still going. */
  predicate CanAct(s: GameState) {
    s.story != "" && !s.isGameOver && !s.isRunComplete
  }

  /**
   * `submitAction`. Without a client only the key message is shown. With
   * one, nothing happens unless the guard holds; a failed call or reply
   * shows the error story; a reply advances the turn counter, takes over
   * the story and the suggestion, and then applies the turn.
   */
  function SubmitAction(s: GameState, hasApi: bool, answer: Option<string>, parse: string -> Option<Json>): (next: GameState)
    ensures !hasApi ==> next == s.(story := NoKeyStory)
    ensures hasApi && !CanAct(s) ==> next == s
    ensures hasApi && CanAct(s) && Outcome(answer, parse).Err? ==> next == s.(story := ActionErrorStory)
    ensures hasApi && CanAct(s) && Outcome(answer, parse).Ok? ==>
      var r := Outcome(answer, parse).value;
      && next.turnInRun == s.turnInRun + 1 && next.userAction == ""
      && next.story == (if r.story == "" then ActionFallbackStory else r.story)
      && next.recommendedAction == r.recommendedAction
      && next.highlights == HighlightsOrEmpty(r.highlights)
      && next.survivalTurns == (if s.hp + SumOf(r.deltas, "hp") > 0 then s.survivalTurns + 1 else s.survivalTurns)
      && next.isGameOver == (s.hp + SumOf(r.deltas, "hp") <= 0)
      && next == ApplyTurn(ActionShown(s, r), r.deltas, r.itemsAdd, r.itemsRemove)
  {
    if !hasApi then s.(story := NoKeyStory)
    else if !CanAct(s) then s
    else
      match Outcome(answer, parse)
      case Err(_) => s.(story := ActionErrorStory)
      case Ok(r) =>
        ActionTurn(s, r);
        ApplyTurn(ActionShown(s, r), r.deltas, r.itemsAdd, r.itemsRemove)
  }

  /** The turn update after an action's reply: counted and survived exactly when the deltas leave hp above 0. */
  lemma ActionTurn(s: GameState, r: Reply)
    ensures var next := ApplyTurn(ActionShown(s, r), r.deltas, r.itemsAdd, r.itemsRemove);
      && next.survivalTurns == (if s.hp + SumOf(r.deltas, "hp") > 0 then s.survivalTurns + 1 else s.survivalTurns)
      && next.isGameOver == (s.hp + SumOf(r.deltas, "hp") <= 0)
  {
    var shown := ActionShown(s, r);
    assert shown.hp == s.hp && shown.survivalTurns == s.survivalTurns;
  }

  /**
   * What `submitAction` sets from a reply before the turn update: the
   * story (or its fallback), a cleared action box, the suggestion, the
   * next turn number of the run and the highlights (or `{}`).
   */
  function ActionShown(s: GameState, r: Reply): (shown: GameState)
    ensures shown.story != "" && shown.userAction == "" && shown.turnInRun == s.turnInRun + 1
    ensures shown.(story := s.story, userAction := s.userAction, recommendedAction := s.recommendedAction,
                   turnInRun := s.turnInRun, highlights := s.highlights) == s
  {
    s.(story := if r.story == "" then ActionFallbackStory else r.story,
       userAction := "",
       recommendedAction := r.recommendedAction,
       turnInRun := s.turnInRun + 1,
       highlights := HighlightsOrEmpty(r.highlights))
  }

  /** Once the player is dead or the run is complete, no further action changes anything (given a client). */
  lemma {:induction false} TerminalAbsorbs(s: GameState, answers: seq<Option<string>>, parse: string -> Option<Json>)
    requires s.isGameOver || s.isRunComplete
    ensures SubmitAll(s, answers, parse) == s
  {
    if |answers| > 0 {
      TerminalAbsorbs(s, answers[..|answers| - 1], parse);
    }
  }

  /** A sequence of actions, each answered by the next text. */
  function SubmitAll(s: GameState, answers: seq<Option<string>>, parse: string -> Option<Json>): GameState {
    if |answers| == 0 then s else SubmitAction(SubmitAll(s, answers[..|answers| - 1], parse), true, answers[|answers| - 1], parse)
  }

  /** The genre a new run plays: a random-run with nothing selected rolls one; otherwise the selection stands. */
  function NextSelection(s: GameState, roll: nat): (sel: Option<string>)
    requires roll < |Genres|
    ensures s.genreMode == RandomRun && (s.selectedGenreId.None? || s.selectedGenreId.value == "") ==> sel == Some(Genres[roll].id)
    ensures !(s.genreMode == RandomRun && (s.selectedGenreId.None? || s.selectedGenreId.value == "")) ==> sel == s.selectedGenreId
  {
    if s.genreMode == RandomRun && (s.selectedGenreId.None? || s.selectedGenreId.value == "")
    then Some(GenreSelect.PickGenre(roll).id)
    else s.selectedGenreId
  }

  /** `generateScenario`'s starting items, written out again there. */
  const ScenarioItems: seq<Item> := [Item(SwordName, 1, Weapon, Some(5), None), Item(BreadName, 1, Food, None, None)]

  /**
   * The reset at the start of `generateScenario`: a fresh run with the
   * session's initial stats, the starting items and nothing equipped.
   * `lastDelta`, `maxTurns` and `genreMode` keep their values.
   */
  function ResetRun(s: GameState, initial: StatTriple, sel: Option<string>): GameState {
    s.(story := "", userAction := "", isGameOver := false, hudNotes := [], survivalTurns := 0,
       hp := initial.hp, atk := initial.atk, mp := initial.mp, equippedWeapon := None, equippedArmor := None,
       items := ScenarioItems, lastSurvivalTurn := "", recommendedAction := "", turnInRun := 0,
       selectedGenreId := sel, isRunComplete := false, achievements := [], ending := "", highlights := JObj([]))
  }

  /**
   * `generateScenario`; `initial` is the hook's `initialStats` and `roll`
   * the random draw of `pickRandomGenre`. The reset happens before the
   * call, so a failed call leaves a reset run showing the error story.
   */
  function GenerateScenario(s: GameState, hasApi: bool, initial: StatTriple, roll: nat,
                            answer: Option<string>, parse: string -> Option<Json>): (next: GameState)
    requires roll < |Genres|
    ensures !hasApi ==> next == s.(story := NoKeyStory)
    ensures hasApi && Outcome(answer, parse).Err? ==>
      next == ResetRun(s, initial, NextSelection(s, roll)).(story := ScenarioErrorStory)
    ensures hasApi && Outcome(answer, parse).Ok? ==>
      var r := Outcome(answer, parse).value;
      next == ApplyTurn(OpeningShown(ResetRun(s, initial, NextSelection(s, roll)), r), r.deltas, r.itemsAdd, r.itemsRemove)
  {
    if !hasApi then s.(story := NoKeyStory)
    else
      var reset := ResetRun(s, initial, NextSelection(s, roll));
      match Outcome(answer, parse)
      case Err(_) => reset.(story := ScenarioErrorStory)
      case Ok(r) => ApplyTurn(OpeningShown(reset, r), r.deltas, r.itemsAdd, r.itemsRemove)
  }

  /** What `generateScenario` sets from the opening reply before its turn update: the story (or its fallback), the suggestion and the highlights. */
  function OpeningShown(reset: GameState, r: Reply): (shown: GameState)
    ensures shown.story != ""
    ensures shown.(story := reset.story, recommendedAction := reset.recommendedAction, highlights := reset.highlights) == reset
  {
    reset.(story := if r.story == "" then ScenarioFallbackStory else r.story,
           recommendedAction := r.recommendedAction,
           highlights := HighlightsOrEmpty(r.highlights))
  }

  /**
   * A reset run is alive and fresh: the session's initial stats, the
   * starting items, nothing equipped, no HUD, no counted turn, no ending;
   * only the last change, the turn limit and the genre mode survive the
   * reset (besides the chosen genre).
   */
  lemma ResetRunValues(s: GameState, initial: StatTriple, sel: Option<string>)
    ensures var r := ResetRun(s, initial, sel);
      && r.hp == initial.hp && r.atk == initial.atk && r.mp == initial.mp
      && !r.isGameOver && !r.isRunComplete
      && r.equippedWeapon.None? && r.equippedArmor.None?
      && r.items == DefaultItems && ValidInventory(r.items)
      && r.hudNotes == [] && r.survivalTurns == 0 && r.turnInRun == 0 && r.lastSurvivalTurn == ""
      && r.story == "" && r.userAction == "" && r.recommendedAction == ""
      && r.ending == "" && r.achievements == [] && r.highlights == JObj([])
      && r.selectedGenreId == sel
      && r.lastDelta == s.lastDelta && r.maxTurns == s.maxTurns && r.genreMode == s.genreMode
  {
    ScenarioItemsAreDefault();
  }

  /** The reset items are the configured starting items: a held sword and bread, a valid inventory. */
  lemma ScenarioItemsAreDefault()
    ensures ScenarioItems == DefaultItems
    ensures ValidInventory(ScenarioItems)
  {
  }

  /**
   * A new run: the ending guard is re-armed, the turn counter of the run
   * is 0, at most one turn is counted (the opening scene's deltas), the
   * inventory invariant holds, and a random-run with no selection has
   * rolled its genre.
   */
  lemma ScenarioStartsRun(s: GameState, initial: StatTriple, roll: nat, answer: Option<string>, parse: string -> Option<Json>)
    requires roll < |Genres|
    ensures var next := GenerateScenario(s, true, initial, roll, answer, parse);
      && next.ending == "" && next.achievements == [] && next.turnInRun == 0
      && 0 <= next.survivalTurns <= 1
      && ValidInventory(next.items)
      && next.selectedGenreId == NextSelection(s, roll)
      && next.genreMode == s.genreMode && next.maxTurns == s.maxTurns
      && (next.isRunComplete ==> s.maxTurns == 1 && next.survivalTurns == 1)
  {
    var reset := ResetRun(s, initial, NextSelection(s, roll));
    ScenarioItemsAreDefault();
    match Outcome(answer, parse)
    case Err(_) =>
    case Ok(r) =>
      OpeningTurn(OpeningShown(reset, r), r.deltas, r.itemsAdd, r.itemsRemove);
  }

  /**
   * A new run whose opening call fails opens on the reset state: the
   * session's initial stats, alive, nothing equipped, an empty HUD.
   */
  lemma ScenarioFailedOpening(s: GameState, initial: StatTriple, roll: nat, answer: Option<string>, parse: string -> Option<Json>)
    requires roll < |Genres| && Outcome(answer, parse).Err?
    ensures var next := GenerateScenario(s, true, initial, roll, answer, parse);
      && next.hp == initial.hp && next.atk == initial.atk && next.mp == initial.mp
      && !next.isGameOver && next.hudNotes == []
      && next.equippedWeapon.None? && next.equippedArmor.None?
  {
    ResetRunValues(s, initial, NextSelection(s, roll));
  }

  /**
   * A new run whose opening reply is `r`: nothing equipped, the initial
   * stats plus the opening deltas (hp floored at 0), game over exactly when
   * those deltas take hp to 0 or below, and a HUD of the opening lines only
   * (under the turn-limit notice when a one-turn run is completed at once).
   */
  lemma ScenarioOpeningState(s: GameState, initial: StatTriple, roll: nat, answer: Option<string>, parse: string -> Option<Json>, r: Reply)
    requires roll < |Genres| && Outcome(answer, parse) == Ok(r)
    ensures var next := GenerateScenario(s, true, initial, roll, answer, parse);
      var lines := HudNotes(r.deltas, r.itemsAdd, r.itemsRemove);
      && next.equippedWeapon.None? && next.equippedArmor.None?
      && next.hp == Max0(initial.hp + SumOf(r.deltas, "hp"))
      && next.atk == initial.atk + SumOf(r.deltas, "atk")
      && next.mp == initial.mp + SumOf(r.deltas, "mp")
      && (next.isGameOver <==> initial.hp + SumOf(r.deltas, "hp") <= 0)
      && (next.isRunComplete ==> next.hudNotes == Cap([MaxTurnNotice] + lines))
      && (!next.isRunComplete ==> next.hudNotes == Cap(lines))
  {
    var reset := ResetRun(s, initial, NextSelection(s, roll));
    ResetRunValues(s, initial, NextSelection(s, roll));
    OpeningStatsOnReset(reset, initial, r);
    OpeningHudOnReset(reset, r);
  }

  /** The opening turn applied to a fresh reset: its stats are the given initial ones plus the deltas, and nothing gets equipped. */
  lemma OpeningStatsOnReset(reset: GameState, initial: StatTriple, r: Reply)
    requires reset.hp == initial.hp && reset.atk == initial.atk && reset.mp == initial.mp
    requires reset.equippedWeapon.None? && reset.equippedArmor.None?
    ensures var next := ApplyTurn(OpeningShown(reset, r), r.deltas, r.itemsAdd, r.itemsRemove);
      && next.equippedWeapon.None? && next.equippedArmor.None?
      && next.hp == Max0(initial.hp + SumOf(r.deltas, "hp"))
      && next.atk == initial.atk + SumOf(r.deltas, "atk")
      && next.mp == initial.mp + SumOf(r.deltas, "mp")
      && (next.isGameOver <==> initial.hp + SumOf(r.deltas, "hp") <= 0)
  {
    var shown := OpeningShown(reset, r);
    assert shown.hp == initial.hp && shown.atk == initial.atk && shown.mp == initial.mp;
    assert shown.equippedWeapon.None? && shown.equippedArmor.None?;
    OpeningStats(shown, r.deltas, r.itemsAdd, r.itemsRemove);
  }

  /** The opening turn applied to a fresh reset shows only its own lines. */
  lemma OpeningHudOnReset(reset: GameState, r: Reply)
    requires reset.hudNotes == [] && !reset.isRunComplete
    ensures var next := ApplyTurn(OpeningShown(reset, r), r.deltas, r.itemsAdd, r.itemsRemove);
      var lines := HudNotes(r.deltas, r.itemsAdd, r.itemsRemove);
      && (next.isRunComplete ==> next.hudNotes == Cap([MaxTurnNotice] + lines))
      && (!next.isRunComplete ==> next.hudNotes == Cap(lines))
  {
    OpeningHud(OpeningShown(reset, r), r.deltas, r.itemsAdd, r.itemsRemove);
  }

  /** The opening turn on a reset run: its stats are the reset's plus the deltas, and the slots stay as they were. */
  lemma OpeningStats(shown: GameState, ds: seq<Delta>, adds: seq<string>, removes: seq<string>)
    ensures var next := ApplyTurn(shown, ds, adds, removes);
      && next.equippedWeapon == shown.equippedWeapon && next.equippedArmor == shown.equippedArmor
      && next.hp == Max0(shown.hp + SumOf(ds, "hp"))
      && next.atk == shown.atk + SumOf(ds, "atk") && next.mp == shown.mp + SumOf(ds, "mp")
      && (next.isGameOver <==> shown.hp + SumOf(ds, "hp") <= 0)
  {
    TurnStats(shown, ds, adds, removes);
    TurnFrame(shown, ds, adds, removes);
  }

  /** The opening turn on a reset run shows only its own lines, under the notice when it completes a one-turn run. */
  lemma OpeningHud(shown: GameState, ds: seq<Delta>, adds: seq<string>, removes: seq<string>)
    requires shown.hudNotes == [] && !shown.isRunComplete
    ensures var next := ApplyTurn(shown, ds, adds, removes);
      var lines := HudNotes(ds, adds, removes);
      && (next.isRunComplete ==> next.hudNotes == Cap([MaxTurnNotice] + lines))
      && (!next.isRunComplete ==> next.hudNotes == Cap(lines))
  {
    var lines := HudNotes(ds, adds, removes);
    TurnHud(shown, ds, adds, removes);
    TurnCompletion(shown, ds, adds, removes);
    assert lines + shown.hudNotes == lines;
    assert [MaxTurnNotice] + lines + shown.hudNotes == [MaxTurnNotice] + lines;
  }

  /** The opening scene's turn on a reset run counts at most one turn and completes the run only under a one-turn limit. */
  lemma OpeningTurn(shown: GameState, ds: seq<Delta>, adds: seq<string>, removes: seq<string>)
    requires ValidInventory(shown.items) && shown.survivalTurns == 0 && !shown.isRunComplete
    ensures var next := ApplyTurn(shown, ds, adds, removes);
      && next.ending == shown.ending && next.achievements == shown.achievements && next.turnInRun == shown.turnInRun
      && next.selectedGenreId == shown.selectedGenreId && next.genreMode == shown.genreMode
      && next.maxTurns == shown.maxTurns
      && 0 <= next.survivalTurns <= 1
      && ValidInventory(next.items)
      && (next.isRunComplete ==> shown.maxTurns == 1 && next.survivalTurns == 1)
  {
    TurnInventory(shown, ds, adds, removes);
  }

  /** In random-run mode the genre is rolled once: a second new run keeps the first roll whatever it draws. */
  lemma GenreRolledOnce(s: GameState, initial: StatTriple, roll1: nat, roll2: nat,
                        a1: Option<string>, a2: Option<string>, parse: string -> Option<Json>)
    requires roll1 < |Genres| && roll2 < |Genres|
    requires s.genreMode == RandomRun && s.selectedGenreId.None?
    ensures var first := GenerateScenario(s, true, initial, roll1, a1, parse);
      && first.selectedGenreId == Some(Genres[roll1].id)
      && GenerateScenario(first, true, initial, roll2, a2, parse).selectedGenreId == Some(Genres[roll1].id)
  {
    GenreIdsNonEmpty();
    var first := GenerateScenario(s, true, initial, roll1, a1, parse);
    ScenarioStartsRun(s, initial, roll1, a1, parse);
    assert Genres[roll1].id != "";
    ScenarioStartsRun(first, initial, roll2, a2, parse);
  }

  /**
   * The ending text: the fixed no-key text without a client, the
   * load-failure text when the call throws, otherwise the trimmed reply
   * or, when that is empty, a fixed closing paragraph. Never empty.
   */
  function EndingText(hasApi: bool, answer: Option<string>): (t: string)
    ensures t != ""
    ensures hasApi && answer.Some? && Trim(answer.value) != "" ==> t == Trim(answer.value)
  {
    if !hasApi then NoKeyEnding
    else if answer.None? then EndingLoadFailed
    else if Trim(answer.value) == "" then EndingEmptyFallback
    else Trim(answer.value)
  }

  /** The ending effect: it runs only on a complete run without an ending, recording the achievements and the ending. */
  function EndingStep(s: GameState, hasApi: bool, answer: Option<string>): (next: GameState)
    ensures !s.isRunComplete || s.ending != "" ==> next == s
    ensures s.isRunComplete && s.ending == "" ==>
      next == s.(achievements := Achievements.Achievements(s), ending := EndingText(hasApi, answer))
  {
    if !s.isRunComplete || s.ending != "" then s
    else s.(achievements := Achievements.Achievements(s), ending := EndingText(hasApi, answer))
  }

  /** The ending is written once: after it is recorded, the effect running again changes nothing, whatever it is answered. */
  lemma EndingOnce(s: GameState, h1: bool, a1: Option<string>, h2: bool, a2: Option<string>)
    ensures var once := EndingStep(s, h1, a1);
      && EndingStep(once, h2, a2) == once
      && (s.isRunComplete ==> once.ending != "")
  {
  }

  /** One more surviving action on the fourth counted turn of a five-turn run completes the run. */
  lemma FifthActionCompletes(s: GameState, answer: Option<string>, parse: string -> Option<Json>)
    requires CanAct(s) && s.maxTurns == 5 && s.survivalTurns == 4
    requires Outcome(answer, parse).Ok? && s.hp + SumOf(Outcome(answer, parse).value.deltas, "hp") > 0
    ensures var t := SubmitAction(s, true, answer, parse);
      && t.isRunComplete && t.survivalTurns == 5 && t.turnInRun == s.turnInRun + 1
      && t.hudNotes[0] == MaxTurnNotice && t.ending == s.ending
  {
    var r := Outcome(answer, parse).value;
    var shown := ActionShown(s, r);
    FinalTurnCompletes(shown, r.deltas, r.itemsAdd, r.itemsRemove);
    TurnFrame(shown, r.deltas, r.itemsAdd, r.itemsRemove);
  }

  /** A complete run without an ending gets a non-empty ending and achievements, after which actions change nothing. */
  lemma CompletedRunEnds(t: GameState, h: bool, ending: Option<string>, later: seq<Option<string>>, parse: string -> Option<Json>)
    requires t.isRunComplete && t.ending == ""
    ensures var e := EndingStep(t, h, ending);
      && e.ending != "" && |e.achievements| >= 1
      && SubmitAll(e, later, parse) == e
  {
    Achievements.AchievementsShape(t);
    TerminalAbsorbs(EndingStep(t, h, ending), later, parse);
  }

  /**
   * A five-turn run on its fourth counted turn: one more surviving action
   * completes it, after which the ending is recorded once and no action
   * changes the state any more.
   */
  lemma FifthTurnEndsRun(s: GameState, answer: Option<string>, parse: string -> Option<Json>,
                         h: bool, ending: Option<string>, later: seq<Option<string>>)
    requires CanAct(s) && s.maxTurns == 5 && s.survivalTurns == 4 && s.ending == ""
    requires Outcome(answer, parse).Ok? && s.hp + SumOf(Outcome(answer, parse).value.deltas, "hp") > 0
    ensures var t := SubmitAction(s, true, answer, parse);
      var e := EndingStep(t, h, ending);
      && t.isRunComplete && t.survivalTurns == 5
      && e.ending != "" && |e.achievements| >= 1
      && SubmitAll(e, later, parse) == e
  {
    FifthActionCompletes(s, answer, parse);
    CompletedRunEnds(SubmitAction(s, true, answer, parse), h, ending, later, parse);
  }

  /** `goHome`: after the player confirms, the default state and its stats become the run and the session's initial stats. */
  function GoHome(s: GameState, initial: StatTriple, confirmed: bool): (r: (GameState, StatTriple))
    ensures !confirmed ==> r == (s, initial)
    ensures confirmed ==> r.0 == DefaultInitialState && r.1 == StatTriple(100, 10, 10)
  {
    if confirmed then (DefaultInitialState, StatTriple(DefaultInitialState.hp, DefaultInitialState.atk, DefaultInitialState.mp))
    else (s, initial)
  }
}
