# Turn resolution of an AI survival text adventure

This project models, in Dafny, how the game turns a loosely structured
reply from a text model into the next game state, and proves facts about
that update. In the game, each player action is sent to a text model. The
reply is expected to hold a JSON object with the next story, stat changes
(`deltas`), items gained (`itemsAdd`) and lost (`itemsRemove`), and a
suggested next action.

The modelled parts:

- **Reply extraction** (module `Reply`): the brace slicing, the tolerant parse and the per-member defaults.
- **Turn summary** (module `TurnDeltas`): the per-stat delta sums, the HUD lines of a turn and the six-line HUD history.
- **Inventory** (module `Inventory`):
  - the keyword item classifier;
  - the stacking inventory with its invariant (quantities at least 1, names unique);
  - the re-typing of saved items on load.
- **Genre selection** (module `GenreSelect`): over the twelve-entry genre table, in the fixed, random-run and rotate-turn modes.
- **The reducer** (module `Turn`): `applyDeltasAndItems`, and the timer step that clears the change badges.
- **The inventory buttons** (module `Handlers`): use, equip and unequip.
- **Achievements** (module `Achievements`): the end-of-run badge list.
- **The run controller** (module `Run`): the guard of `submitAction`, the reset of `generateScenario`, the ending effect and `goHome`.
- **The older single-file app** (module `LegacyApp`): its inventory is a list of bare names. It removes by filtering and adds by appending. It has no turn limit, and its resets use fixed values.
- **The configuration** (module `GameConfig`): the genre table and the default state.

The game state is React state and is replaced whole by each update, so it
is a datatype, and each update is a function from the previous state to
the next. Where the source computes that update with loops (summing
deltas, pushing HUD lines, stacking items, pushing badges, splicing the
inventory), the loop is a `method` proved equal to the specification
function. The properties are then proved about that function.

The environment is supplied as parameters:

- `JSON.parse` is a parameter `parse: string -> Option<Json>`, where `None` stands for a thrown `SyntaxError`.
- Whether a model client exists is `hasApi: bool`.
- A model's text answer is `Option<string>`, where `None` means the call threw.
- The random genre draw is an index `roll < 12`.
- The player's confirmation dialog answer is `confirmed: bool`.

Two behaviours of the code are worth knowing before reading the model:

- **Extraction can fail.** `(parsed.story ?? "").trim()` throws when `story` (or `recommendedAction`) is present but not a string, and member access throws when the reply parses to `null`. `Reply.Extract` returns an error in exactly those cases, and the controllers then take their `catch` branch. A real `JSON.parse` never yields `null` here: the text it is given either starts with `{` or is empty. The `NullReply` error exists only because `parse` is an arbitrary parameter. A call that throws is a separate error, `CallFailed`.
- **Misordered braces.** When the last `}` comes before the first `{`, the slice is `""`. That fails to parse, so the reply falls back to `{}`.

## Model

| member | source | states |
|---|---|---|
| Reply.FirstIndex | src/hooks/useGame.ts:544 | `indexOf`: -1 exactly when the character is absent, otherwise its first position |
| Reply.LastIndex | src/hooks/useGame.ts:545 | `lastIndexOf`: -1 exactly when the character is absent, otherwise its last position |
| Reply.Candidate | src/hooks/useGame.ts:543-546 | `"{}"` when either brace is missing; otherwise the text from the first `{` to the last `}` inclusive, occurring in the reply with no `{` before it and no `}` after it; empty exactly when every `}` precedes every `{` |
| Reply.DecodeDelta | src/hooks/useGame.ts:698 | a delta has an amount exactly when its `delta` member is a number, and the amount is that number; its stat and reason are the `stat` and `reason` members when those are strings and absent otherwise; a non-object entry has no members |
| Reply.ArrayMember | src/hooks/useGame.ts:558-567 | `Array.isArray(..) ? .. : []`: an array member reads as its elements, any other member as `[]` |
| Reply.StringsOf | src/hooks/useGame.ts:559-564 | an item-name array yields no more names than it has entries |
| Reply.StringsOfMembers | src/hooks/useGame.ts:559-564 | a name is kept exactly when the array holds it as a string |
| Reply.StringsOfCounts | src/hooks/useGame.ts:559-564 | each name is kept as many times as the array holds it, so a name listed twice is passed on twice |
| Reply.StringsOfSnoc | src/hooks/useGame.ts:559-564 | one more element adds its text at the end when it is a string, and nothing otherwise |
| Reply.StringsOfAppend | src/hooks/useGame.ts:559-564 | the kept names are in array order: the names of two arrays joined are the names of each, joined |
| Reply.OrNull | src/hooks/useGame.ts:557 | `?? null`: null exactly when the member is missing or null, otherwise the member unchanged |
| Reply.TrimmedText | src/hooks/useGame.ts:556 | succeeds exactly when the member is nullish or a string; nullish gives `""`, a string gives its trim |
| Reply.Parsed | src/hooks/useGame.ts:548-554 | a candidate that fails to parse gives the empty object; one that parses gives its parsed value |
| Text.Trim | src/hooks/useGame.ts:543 | the result is a substring that starts after the leading whitespace run, is followed only by whitespace, and has no whitespace at either edge |
| Reply.Extract | src/hooks/useGame.ts:543-570 | fails exactly on a parsed `null` or a non-string story or recommended action; on success the payload is the one assembled from the parsed value with the trimmed story and suggestion; a failed parse gives all defaults; every non-array list member reads `[]`; nullish story, action, subject, bgm and highlights take their defaults; each delta is decoded from the element at the same index |
| Reply.Assemble | src/hooks/useGame.ts:557-570 | the payload keeps the two read texts; non-array lists read `[]`; nullish subject, bgm and highlights take their defaults; each delta is decoded from the element at the same index |
| Reply.AssemblePassesThrough | src/hooks/useGame.ts:557-570 | members present with the right type pass through: the string elements of `itemsAdd` and `itemsRemove`, the `hudNotes` array, and a non-nullish subject, bgm and highlights unchanged |
| Reply.NoBracesGivesDefaults | src/hooks/useGame.ts:546-554 | a reply without a brace pair yields the all-defaults payload |
| Reply.MisorderedBracesGiveDefaults | src/hooks/useGame.ts:544-554 | braces in the wrong order yield the all-defaults payload |
| TurnDeltas.SumOfAppend | src/hooks/useGame.ts:697-702 | deltas of one stat accumulate: the total over two lists is the sum of the totals |
| TurnDeltas.SumOfIgnored | src/hooks/useGame.ts:698 | entries with a non-numeric delta or another stat contribute nothing |
| TurnDeltas.SumDeltas | src/hooks/useGame.ts:693-702 | the loop computes the hp, atk and mp totals of the deltas |
| TurnDeltas.DeltaNote | src/hooks/useGame.ts:651-655 | a delta gets a HUD line exactly when its amount is a non-zero number |
| TurnDeltas.DeltaNotesAppend | src/hooks/useGame.ts:649-657 | delta lines are emitted one per qualifying entry, in order |
| TurnDeltas.DeltaNotesSilent | src/hooks/useGame.ts:652 | deltas that are all zero or non-numeric produce no line |
| TurnDeltas.ItemNotes | src/hooks/useGame.ts:659-665 | one line per listed item |
| TurnDeltas.ItemNotesAt | src/hooks/useGame.ts:660 | line `i` is the prefix followed by the `i`-th name |
| TurnDeltas.GenerateHudNotes | src/hooks/useGame.ts:637-670 | the pushes produce the delta lines, then the added-item lines, then the removed-item lines; the count is their sum |
| TurnDeltas.Cap | src/hooks/useGame.ts:689 | `slice(0, 6)`: at most six lines, the leading ones, and all lines when fewer than six |
| TurnDeltas.CapPrepend | src/hooks/useGame.ts:752-757 | prepending to the capped history and capping again equals capping once |
| GameConfig.GenresWellFormed | src/gameConfig.ts:14-87 | twelve genres with pairwise different, non-empty ids |
| GameConfig.DefaultStateValues | src/gameConfig.ts:90-122 | the default run: hp 100, atk 10, mp 10, no turns, 5-turn limit, not over, not complete, random-run with nothing selected, no achievements, no ending; starting items have quantity 1, and only the sword has an attack bonus (5) |
| Inventory.ClassifyPicksFirstMatch | src/hooks/useGame.ts:26-70 | the classifier returns a type whose keywords occur in the normalised name; no earlier group matches; misc exactly when no group matches |
| Inventory.WeaponKeywordWins | src/hooks/useGame.ts:28-35 | a name holding "검" is a weapon, whatever else it holds (e.g. also "갑옷") |
| Inventory.SwordIsWeapon | src/gameConfig.ts:103 | the starting sword's name classifies as a weapon |
| Inventory.BreadIsFood | src/gameConfig.ts:104 | the starting bread's name classifies as food |
| Inventory.StartingItemsClassified | src/gameConfig.ts:102-105 | each starting item's declared type is the classifier's type for its name |
| Inventory.IndexOf | src/hooks/useGame.ts:710-712 | `findIndex` by name: -1 exactly when no entry has the name, otherwise the first entry that has it |
| Inventory.FindIndex | src/hooks/useGame.ts:726 | the scan returns the first index with the name, or -1 |
| Inventory.AddNameQty | src/hooks/useGame.ts:709-722 | one add keeps the inventory valid and raises only the added name's quantity, by one |
| Inventory.RemoveNameQty | src/hooks/useGame.ts:725-731 | one removal keeps the inventory valid and lowers only the removed name's quantity, by one and never below 0; an absent name changes nothing |
| Inventory.AddAllQty | src/hooks/useGame.ts:708-723 | after all adds, each name's quantity has risen by how often it is listed, so a name listed twice stacks by two |
| Inventory.RemoveAllQty | src/hooks/useGame.ts:724-732 | after all removals, each quantity has fallen by how often it is listed, bottoming at 0 (entry gone) |
| Inventory.AddNameShape | src/hooks/useGame.ts:713-721 | an add keeps existing entries in place (apart from quantity) and may append a new classified entry of quantity 1 |
| Inventory.AddAllShape | src/hooks/useGame.ts:708-723 | all adds keep the old entries in order, apart from quantity; every appended entry is created from a listed name |
| Inventory.Upgrade | src/hooks/useGame.ts:91-97 | a loaded item takes its name, its quantity or 1, and its bonuses; its type is re-derived from the name |
| Inventory.UpgradeRoundTrip | src/hooks/useGame.ts:91-97 | saving and reloading returns an item exactly when its type agrees with the classifier |
| GenreSelect.IndexOfId | src/hooks/useGame.ts:148 | `findIndex` by id: -1 exactly when absent, otherwise the first match |
| GenreSelect.GenreById | src/hooks/useGame.ts:127-128 | found exactly when some table genre has the id; the found genre is in the table and has that id |
| GenreSelect.PickGenre | src/hooks/useGame.ts:129 | the drawn genre is a table entry |
| GenreSelect.BaseIndex | src/hooks/useGame.ts:145-150 | the rotation start is a table index |
| GenreSelect.Rotate | src/hooks/useGame.ts:151 | the rotated index is below 12 |
| GenreSelect.RotateIndex | src/hooks/useGame.ts:145-152 | rotate-turn's index is a table index |
| GenreSelect.GenreByIdOfTable | src/gameConfig.ts:14-87 | looking up a table genre's id finds that genre |
| GenreSelect.ActiveGenreByMode | src/hooks/useGame.ts:131-153 | fixed and random-run give the id lookup, whatever the turn; rotate-turn always gives a genre |
| GenreSelect.RotationStep | src/hooks/useGame.ts:151 | one more turn moves one entry forward, wrapping from the last genre to the first |
| GenreSelect.RotationPeriod | src/hooks/useGame.ts:151 | rotation repeats after 12 turns |
| GenreSelect.RotationStartsAtSelection | src/hooks/useGame.ts:146-151 | turn 0, or any negative turn, plays the selected genre |
| GenreSelect.UnknownIdRotatesFromStart | src/hooks/useGame.ts:146-151 | an unknown or empty id rotates as if nothing were selected, starting at the first genre |
| GenreSelect.RotateFrom | src/hooks/useGame.ts:145-152 | rotating from the selected genre at table index j plays index j + turn while that stays inside the table |
| Turn.AddItems | src/hooks/useGame.ts:708-723 | the add loop computes the specified stacking of all names |
| Turn.RemoveItems | src/hooks/useGame.ts:724-732 | the removal loop computes the specified unstacking of all names |
| Turn.ApplyDeltasAndItems | src/hooks/useGame.ts:672-771 | the step-by-step update equals the specified turn |
| Turn.TurnStats | src/hooks/useGame.ts:697-706 | hp is the clamped sum, never negative; atk and mp are plain sums; `lastDelta` records the three totals |
| Turn.TurnCounting | src/hooks/useGame.ts:734-739 | game over exactly when hp falls to 0 or below; the turn is counted and marked exactly otherwise |
| Turn.TurnCompletion | src/hooks/useGame.ts:741-760 | the run completes exactly when it was complete, or this turn survived and reached a positive turn limit; completion is never undone |
| Turn.TurnInventory | src/hooks/useGame.ts:708-732 | the inventory stays valid; each name's quantity is old plus adds minus removals, floored at 0 |
| Turn.TurnHud | src/hooks/useGame.ts:688-689 | the HUD is at most six lines: the notice when the limit is reached, then the new lines, then the old ones, capped once |
| Turn.TurnFrame | src/hooks/useGame.ts:744-761 | nothing outside the turn's members changes |
| Turn.QuietTurn | src/hooks/useGame.ts:697-739 | while alive, a turn without deltas or items counts a turn and leaves stats and items as they were |
| Turn.FinalTurnCompletes | src/hooks/useGame.ts:741-757 | turn 5 of 5 survived completes the run and puts the notice first on the HUD |
| Turn.LethalTurn | src/hooks/useGame.ts:734-760 | a lethal turn shows hp 0, ends the game, keeps the counter and does not complete the run |
| Turn.ClearLastDelta | src/hooks/useGame.ts:764-770 | the timer zeroes the last change and the turn mark, and touches nothing else |
| Turn.ClearLastDeltaIdempotent | src/hooks/useGame.ts:764-770 | clearing twice is clearing once |
| Handlers.Push | src/hooks/useGame.ts:253-258 | a note goes on top of the HUD and the history stays at most six lines, the rest shifted down by one |
| Handlers.UseItem | src/hooks/useGame.ts:240-276 | without confirmation, or when the name is not held, nothing changes; otherwise hp rises by 10 for food and 30 for a potion (no upper clamp), the entry is decremented or removed, and food and potions leave a HUD line |
| Handlers.HandleUseItem | src/hooks/useGame.ts:240-276 | the splice-and-push update equals the specified use |
| Handlers.UseItemQty | src/hooks/useGame.ts:260-268 | using keeps the inventory valid and takes exactly one from the used name |
| Handlers.EquipItem | src/hooks/useGame.ts:278-335 | non-weapons and non-armour, and names not held, change nothing; otherwise the whole entry leaves the inventory, any item the slot held is pushed to the end, and the slot holds the entry |
| Handlers.HandleEquipItem | src/hooks/useGame.ts:278-335 | the splice-and-push update equals the specified equip |
| Handlers.UnequipItem | src/hooks/useGame.ts:337-376 | acts only when the slot holds an item of that name; then the slot empties and its item goes to the end of the inventory |
| Handlers.UnequipConserves | src/hooks/useGame.ts:337-376 | unequipping leaves inventory plus slots unchanged as a multiset |
| Handlers.EquipMoves | src/hooks/useGame.ts:291-320 | equipping removes the chosen entry and appends what the slot held |
| Handlers.EquipConserves | src/hooks/useGame.ts:278-335 | equipping swaps the chosen entry for the passed item in the belongings; with the entry itself nothing is gained or lost |
| Handlers.EquipThenUnequip | src/hooks/useGame.ts:278-376 | equipping a held entry into an empty slot and then unequipping it leaves both slots as they were, the entry moved to the end, and the same multiset of inventory entries |
| Handlers.EquipKeepsValid | src/hooks/useGame.ts:278-335 | equipping keeps the inventory valid when the item leaving the slot has quantity at least 1 and its name is held by no entry other than the one being equipped |
| Achievements.FoodEntries | src/hooks/useGame.ts:191 | food entries (not quantities) are counted, never more than the inventory holds |
| Achievements.ComputeAchievements | src/hooks/useGame.ts:186-199 | the sequence of pushes yields the earned badges in order, or the fallback |
| Achievements.EarnedInOrder | src/hooks/useGame.ts:188-196 | the six checks, in the source's order, build exactly the earned list |
| Achievements.BadgesDistinct | src/hooks/useGame.ts:188-197 | the six badge texts differ pairwise and from the fallback |
| Achievements.EarnedMembers | src/hooks/useGame.ts:188-196 | a text is earned exactly when some badge with that text holds |
| Achievements.EarnedBound | src/hooks/useGame.ts:188-196 | never more badges than checked |
| Achievements.AchievementsShape | src/hooks/useGame.ts:186-199 | one to six entries; the list is the fallback alone exactly when no badge holds, and the fallback appears exactly then |
| Achievements.AchievementsMembership | src/hooks/useGame.ts:188-196 | each badge's text is listed exactly when its condition holds |
| Run.SubmitAction | src/hooks/useGame.ts:963-1033 | without a client, only the key-missing story; without a story, or after death or completion, nothing; a failed reply gives the error story; otherwise the result is exactly the turn update applied to the state showing the reply: the story (or its fallback), a cleared action box, the suggestion, the next turn number and the reply's highlights (or `{}`) |
| Run.ActionTurn | src/hooks/useGame.ts:734-738 | after an action's reply the turn is counted, and the game goes on, exactly when the deltas leave hp above 0 |
| Run.ActionShown | src/hooks/useGame.ts:1008-1017 | the state showing an action's reply has a non-empty story, an empty action box and the next turn number, and differs from the old state in nothing else but the suggestion and the highlights |
| Run.TerminalAbsorbs | src/hooks/useGame.ts:963-970 | given a client, once dead or complete, any sequence of actions changes nothing |
| Run.NextSelection | src/hooks/useGame.ts:859-862 | random-run with nothing selected rolls a genre; otherwise the selection stands |
| Run.ScenarioItemsAreDefault | src/hooks/useGame.ts:880-883 | the reset's items are the configured starting items and form a valid inventory |
| Run.GenerateScenario | src/hooks/useGame.ts:855-949 | without a client, only the key-missing story; a failed call or reply gives the reset state with the error story; otherwise the result is exactly the turn update applied to the reset state showing the opening reply |
| Run.OpeningShown | src/hooks/useGame.ts:927-934 | the state showing the opening reply has a non-empty story and differs from the reset in nothing but the story, the suggestion and the highlights |
| Run.ResetRunValues | src/hooks/useGame.ts:864-894 | the reset run has the session's initial stats, is alive and not complete, has nothing equipped, the starting items, no HUD, no counted turns, empty texts, no ending or achievements, no highlights and the chosen genre; it keeps only the last change, the turn limit and the mode |
| Run.ScenarioFailedOpening | src/hooks/useGame.ts:864-946 | after a failed opening the player has the initial stats, is alive, has an empty HUD and nothing equipped |
| Run.ScenarioOpeningState | src/hooks/useGame.ts:864-935 | after an opening reply, nothing is equipped; hp is the initial hp plus the opening deltas, floored at 0; atk and mp are the initial values plus their deltas; the game is over exactly when those deltas take hp to 0 or below; the HUD holds only the opening lines, under the turn-limit notice when the run completes at once |
| Run.ScenarioStartsRun | src/hooks/useGame.ts:855-949 | a new run has no ending or achievements, turn 0, at most one counted turn (the opening scene's), a valid inventory, the chosen genre, and the same mode and turn limit; it is complete only for a one-turn limit |
| Run.GenreRolledOnce | src/hooks/useGame.ts:859-862 | a second new run keeps the genre rolled by the first, whatever it draws |
| Run.EndingText | src/hooks/useGame.ts:201-238 | the ending text is never empty, and is the trimmed answer when that is non-empty |
| Run.EndingStep | src/hooks/useGame.ts:778-801 | the ending runs only on a complete run without an ending, and records the achievements and the ending |
| Run.EndingOnce | src/hooks/useGame.ts:780 | once recorded, running the ending effect again changes nothing |
| Run.FifthActionCompletes | src/hooks/useGame.ts:963-1018 | a surviving action on the fourth counted turn of five completes the run |
| Run.CompletedRunEnds | src/hooks/useGame.ts:778-801 | a completed run gets a non-empty ending and achievements, after which actions change nothing |
| Run.FifthTurnEndsRun | src/hooks/useGame.ts:963-1018 | the fifth survived turn ends the run with an ending and then absorbs further actions |
| Run.GoHome | src/hooks/useGame.ts:1050-1064 | unconfirmed, nothing changes; confirmed, the default state and its stats take over |
| LegacyApp.ExtractReply | src/App.tsx:295-316 | the older reader fails exactly when the current reader does, agrees with it on every field it returns, and gives all defaults on a failed parse |
| LegacyApp.WithoutCount | src/App.tsx:372 | filtering drops every copy of a removed name and keeps every other copy |
| LegacyApp.EditItemsCount | src/App.tsx:372-373 | each name's count is its old count (0 if removed) plus its count in the adds; a name is held exactly when it was held and not removed, or it was added, so removed-and-added ends present |
| LegacyApp.ApplyDeltasAndItems | src/App.tsx:345-394 | the sum loop, HUD lines and filter-then-append equal the specified older turn |
| LegacyApp.LegacyTurnFacts | src/App.tsx:352-392 | hp clamped at 0, atk and mp plain sums, the totals recorded; game over exactly at hp 0 or below; the turn counted and marked `highlight` exactly otherwise, the old mark kept on death; the HUD is the new lines on top of the old ones, cut to six |
| LegacyApp.ClearLastDelta | src/App.tsx:397-403 | the timer zeroes the last change and the turn mark, and touches nothing else |
| LegacyApp.SubmitAction | src/App.tsx:493-524 | without a client, only the key-missing story; without a story or after death, nothing |
| LegacyApp.LegacyActionCounts | src/App.tsx:494-513 | with no turn limit, a turn is counted exactly when the player survives it, and a dead player's further actions change nothing |
| LegacyApp.ResetsAgree | src/App.tsx:444-460 | the new-run reset sets hp 100, atk 10, mp 30, the two starting names, no turns, no HUD, not over, and equals the home state apart from the kept last change and action box |
| LegacyApp.OpeningShown | src/App.tsx:474-478 | the opening scene shows the reply's story (the fallback when it is empty, so never an empty story) and its suggestion, and changes nothing else |
| LegacyApp.GenerateScenario | src/App.tsx:442-490 | without a client, only the key-missing story; a failed call or reply leaves the reset run under the error story; a reply applies its turn to the reset showing the opening scene |
| LegacyApp.LegacyScenarioFailed | src/App.tsx:443-486 | after a failed opening the run is fresh and alive: error story, hp 100, atk 10, mp 30, the two starting names, no HUD, no turns, the last change and action box kept |
| LegacyApp.LegacyScenarioOpening | src/App.tsx:444-479 | a successful opening is the fresh run's first turn: hp 100 plus the hp deltas floored at 0, atk 10 and mp 30 plus theirs, game over exactly when hp reaches 0, one turn counted otherwise, the starting names edited by the reply, and only the opening HUD lines |
| LegacyApp.OpeningOnReset | src/App.tsx:474-479 | the older turn applied to a fresh run's opening scene starts from hp 100, atk 10, mp 30, no turns and the starting names, and its HUD holds only the opening lines |
| LegacyApp.LegacyDefaultVersusCurrent | src/App.tsx:96-115 | the older default starts with mp 30, the current one with mp 10; hp and atk agree |

## Left out

- Turn.ApplyDeltasAndItems, Handlers.HandleUseItem, Handlers.EquipItem: the model treats items as values, so it does not capture object sharing. The source copies only the list, so its item objects are shared with the previous state. `applyDeltasAndItems` changes `quantity` in place (src/hooks/useGame.ts:713 stacks, src/hooks/useGame.ts:728 unstacks). So does `handleUseItem` (src/hooks/useGame.ts:262-263). When the inventory holds two entries with the same name, the button passes the list's own object (src/components/game/GameUI.tsx:381). `handleEquipItem` then removes the first entry with that name (src/hooks/useGame.ts:291-296) but puts the passed object, the later entry, in the slot (src/hooks/useGame.ts:306). The slot and the inventory then hold one object. After an unequip (src/hooks/useGame.ts:300), the inventory holds that object twice. Any later stacking, unstacking or use then changes every reference to it in the source. The model changes one copy only.
- Text calls, image calls and the ending narrative call are network calls to a foreign API. They are parameters: a client flag and an answer, or its absence.
- Not modelled because they are prompt text with nothing to verify:
  - prompt and genre-directive strings, so `buildGenreDirectivesForPrompt` is reduced to its choice of active genre (`GenreSelect.ActiveGenre`);
  - `buildImagePromptFromSubject`;
  - image error classification.
- Browser storage is not modelled: autosave and the save, load and delete slots. Only the item re-typing of the load is modelled (`Inventory.Upgrade`).
- Timers are not modelled. The three-second badge timer is the separate step `ClearLastDelta`.
- Run.EndingStep: the ending effect is one atomic step here. In the source it depends on the whole game state (src/hooks/useGame.ts:806-817), and the typing interval replaces that state on every tick (src/hooks/useGame.ts:834-840). So the effect can run again, and request another ending narrative, while the first request is still pending (src/hooks/useGame.ts:779-801). The model does not capture those repeated ending calls or the order in which their results land; `Run.EndingOnce` covers only the state after an ending is recorded.
- Not modelled because they are presentation only: the typing animation, loading flags, scene image URL and errors, and the background-music choice (`currentBgm`).
- Reply.StringsOf: it drops non-string entries of `itemsAdd`/`itemsRemove`, which the source passes on. Three effects of those entries are therefore not modelled:
  - a non-string name reaching the classifier would fail in its `trim`;
  - the older app appends non-string `itemsAdd` entries to its inventory as they are (src/App.tsx:373);
  - both versions write a HUD line for every removed entry, string or not (src/hooks/useGame.ts:663-665, src/App.tsx:336-338), and the model has no line for the dropped ones.
- TurnDeltas.ReasonSuffix: a truthy `reason` that is not a string is dropped. The source's template renders it as text, so `{"stat":"hp","delta":-5,"reason":3}` gives `HP -5 (3)` there and `HP -5` here.
- TurnDeltas.DeltaNote: a non-string `stat` with a non-zero delta is rendered with an empty stat name. The source would throw in `toUpperCase`.
- Json.Json: numbers are integers only. JavaScript numbers are floating point; fractional deltas are not modelled.
- Text.Trim: it strips a fixed set of common whitespace characters, not the full Unicode set that `trim` strips.
- Text.Lower and Text.Upper: they map ASCII letters only. All classifier keywords are Korean or lower-case ASCII.
- Handlers.EquipKeepsValid: it is conditional. Equipping pushes the previously equipped item back without stacking, so the inventory can end up holding a name twice.
- Handlers.UseItem: using an item that is neither food nor a potion still consumes one, with no HUD line. This is as in the source.
- Achievements: the strong-weapon badge inspects only the inventory, not the equipped weapon. The hoarder badge counts food entries, not quantities. Both are as in the source.
- The turn-limit clamp of the options dialog is a UI input bound and is not modelled. `maxTurns` is any integer here.
