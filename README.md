# pokebot-gen3 core, modelled in Dafny

This project models the decision logic of pokebot-gen3, a bot that plays the
third-generation Pokémon games in an emulator. It covers five parts of the bot:

- **Encounters** (`encounter.dfy`, module `Encounter`). An encountered creature
  is classified as Shiny, ShinyOnBlockList, Roamer, RoamerOnBlockList,
  CustomFilterMatch or Trash. The classifier checks shininess, then the custom
  catch filters, then the active roamer. The handler picks a battle action
  (Catch, Fight, CustomAction, RunAway), switches the bot to manual mode, and
  logs the encounter once per personality value. Its state (last encounter,
  status message, manual mode and the side-effect calls in order) is a record.
- **Player data** (`player.dfy`, module `Player`). The avatar flag bits, the
  bike test and the tile in front of the player are decoded from raw bytes. So
  are the XOR-masked money and coins, the trainer and secret IDs, the gender,
  and the registered item. The equality operators of both records are modelled
  too. An encoder is the partner of the decoders.
- **Scripted routines** (`higher_level_actions.dfy`, module
  `HigherLevelActions`). These cover flying, fishing, choosing a party slot,
  saving, and buying and selling in a mart. The `Game` class holds the emulator's
  input log, the held buttons, the region-map cursor and the mart menu position.
  Its methods change these step by step, as the source's loops do. Values the
  game shows that change between frames are given as sequences, one entry per
  loop iteration.
- **Static gift resets** (`static_gift_resets.dfy`, module `StaticGiftResets`).
  This covers the gift table lookup, the ordered checks of the saved game, the
  egg-hatch callback (a class with the mode's flag and the controller stack),
  and the reset loop.
- **Debug listeners** (`debug_menu.dfy`, module `DebugMenu`). The bot's listener
  list is a class that is enabled, disabled and toggled in place. The
  force-shiny listener is a two-flag state machine. The module also covers the
  match-call byte splice, the test-party splice and the file name shown for a
  chosen path.

`common.dfy` (module `Common`) holds the shared types:
- `Option` and `Result`;
- buttons and the input log;
- little-endian field packing;
- Python's clamping slice.

`sell_in_shop` compares with a true division (`/`), so `SellReverseScroll`
works over `real`. Negative list indices follow Python's rules (`SliceTo`).

`handle_encounter` treats Roamer as of interest, but `EncounterValue.is_of_interest`
does not. `on_egg_hatched` uses the latter. Both notions are modelled, and
`Encounter.InterestMismatchIsRoamer` states that they differ exactly on Roamer.
The gift reset mode hands `handle_encounter` an encounter record. The model
passes the creature snapshot that the handler reads.

## Model

| member | source | states |
|---|---|---|
| Encounter.RunCustomCatchFilters | modules/encounter.py:50-53 | the custom filter's answer when truthy, else the plugin's; a bare `True` becomes "Matched a custom catch filter"; the result is `False` exactly when the custom answer is falsy and the plugin says `False`; it is never `True` |
| Encounter.EmptyPluginTextIsAMatch | modules/encounter.py:50-53 | an empty string from the plugin is passed through, so it is not `False` and counts as a match later |
| Encounter.InterestMismatchIsRoamer | modules/encounter.py:64-66 | `is_of_interest` (Shiny, CustomFilterMatch) and the handler's notion (which adds Roamer) disagree exactly on Roamer |
| Encounter.JudgeEncounter | modules/encounter.py:69-102 | the result is Shiny or ShinyOnBlockList iff the creature is shiny, the latter iff either name is blocked; a non-shiny creature is CustomFilterMatch iff the filter result is not `False`; Roamer or RoamerOnBlockList iff no filter match and both personality value and species equal the active roamer's, with the block list choosing between them; Trash iff none of these holds |
| Encounter.ShinyIgnoresFiltersAndRoamer | modules/encounter.py:78-84 | for a shiny creature the classification does not depend on the filters or the roamer |
| Encounter.BlockListFlipsShiny | modules/encounter.py:79-84 | adding the species name to the block list makes a shiny ShinyOnBlockList; removing both names makes it Shiny |
| Encounter.FilterOutranksRoamer | modules/encounter.py:86-87 | a truthy custom filter gives CustomFilterMatch even for the active roamer |
| Encounter.RoamerNeedsBothKeys | modules/encounter.py:89-102 | without a filter match, a creature that differs from the roamer in personality value or species is Trash |
| Encounter.Decide | modules/encounter.py:212-226 | for Shiny, CustomFilterMatch and Roamer the action is Catch iff auto-catch is on, not disabled, and a battle is active, else CustomAction; for the rest Fight iff auto-battle is on, else RunAway |
| Encounter.DisabledAutoCatchNeverCatches | modules/encounter.py:218 | with auto-catch disabled by the caller the action is never Catch |
| Encounter.LoggedAction | modules/encounter.py:228-231 | the log gets no action iff logging is suppressed or no battle is active; otherwise it gets the decision |
| Encounter.ActionSuffixInjective | modules/encounter.py:139-149 | the message suffixes of different actions differ |
| Encounter.SpeciesLabel | modules/encounter.py:127-135 | the label is the species name, prefixed by "Shiny " for a shiny, then " ♂" or " ♀" for a known gender (nothing otherwise), then " (<letter>)" for Unown; its length is fixed by these parts |
| Encounter.SpeciesLabelShowsGender | modules/encounter.py:130-133 | two creatures with the same shown name whose labels agree have the same gender |
| Encounter.EncounterMessage | modules/encounter.py:139-151 | the message is "Encountered ", the species label, the action's suffix, a blank line and the fun facts, each at its fixed position |
| Encounter.EncounterMessageShowsAction | modules/encounter.py:139-151 | the message for one creature determines the action taken: different actions give different messages |
| Encounter.LogEncounter | modules/encounter.py:105-151 | a repeat of the last personality value changes nothing; otherwise the creature becomes the last encounter, the message is set, manual mode is kept, and the stats log call (plus an export when "save all" is on) is appended |
| Encounter.LogEncounterTwiceLogsOnce | modules/encounter.py:106-111 | logging the same creature twice in a row gives the state after the first |
| Encounter.LogEncounterNewCreatureLogs | modules/encounter.py:106-115 | a creature with a new personality value becomes the last encounter and adds effects |
| Encounter.ReportEffects | modules/encounter.py:161-210 | a notification is sent iff the classification is handled as of interest; an export happens iff "save all" is off and the shiny, custom-filter or new-roamer-species export setting applies to the classification |
| Encounter.React | modules/encounter.py:161-222 | the effects get the report, then a save state iff handled as of interest; manual mode is switched on iff handled as of interest and not caught; the log fields are untouched |
| Encounter.SaveStateOnlyWhenOfInterest | modules/encounter.py:214-216 | among the effects of one handled encounter, its save state appears iff the encounter is handled as of interest |
| Encounter.HandleEncounter | modules/encounter.py:154-233 | the action is the decision table applied to the classification; manual mode ends on iff it was on or the action is CustomAction; a new creature becomes the last encounter with the message for the logged action; a repeat leaves both alone; the save state appears iff handled as of interest |
| Encounter.HandleEncounterKeepsManualMode | modules/encounter.py:221 | manual mode, once on, stays on |
| Player.FlagsOf | modules/player.py:114-116 | a flag is in the decoded set iff its bit is set in the flag byte |
| Player.FlagsByte | modules/player.py:14-22 | the byte has a flag's bit set iff the flag is in the set |
| Player.FlagsOfFlagsByte | modules/player.py:14-22 | decoding an encoded flag set gives the set back |
| Player.FlagsByteOfFlags | modules/player.py:14-22 | encoding the flags of a byte gives the byte back |
| Player.IsOnBike | modules/player.py:118-120 | on a bike iff the Acro Bike or Mach Bike bit (mask 0x06) of flag byte 0 is set |
| Player.LocationInFront | modules/player.py:97-108 | a tile is returned iff the targeted coordinates lie in [0, width) × [0, height), and it is on the open map at those coordinates |
| Player.AvatarNeContrast | modules/player.py:59-77 | `__ne__` as written equals `not __eq__` iff the object events or the avatar records differ; when both agree it returns the same as `__eq__` |
| Player.AvatarNeOfItself | modules/player.py:69-75 | an avatar compares both equal and unequal to itself |
| Player.AvatarNeIntendedIsNegation | modules/player.py:59-77 | with `!=` in the third disjunct, `__ne__` is exactly `not __eq__` |
| Player.NameBytes | modules/player.py:173-175 | the name is decoded from bytes 0 to 8 of save block 2 |
| Player.GenderOf | modules/player.py:177-182 | male iff byte 8 of save block 2 is 0 |
| Player.TrainerId | modules/player.py:184-186 | the 16-bit value whose little-endian bytes are 0x0A..0x0C of save block 2 |
| Player.SecretId | modules/player.py:188-190 | the 16-bit value whose little-endian bytes are 0x0C..0x0E of save block 2 |
| Player.Money | modules/player.py:192-194 | money XOR the 32-bit key is the stored field at bytes 0..4 |
| Player.Coins | modules/player.py:196-198 | a 16-bit value equal to the field at bytes 4..6 XOR the low half of the key |
| Player.RegisteredItem | modules/player.py:200-206 | none iff bytes 6 and 7 of save block 1 are both 0; otherwise the non-zero index stored there |
| Player.Decode | modules/player.py:173-206 | the decoded record has an 8-byte name and never registered item 0 |
| Player.Block1 | modules/player.py:192-206 | the save-block-1 layout the decoders read: masked money, masked coins, item index |
| Player.Block2 | modules/player.py:173-190 | the save-block-2 layout the decoders read: name, gender byte, trainer ID, secret ID |
| Player.Encode | modules/player.py:173-206 | the encoded player is well formed and keeps the key |
| Player.MoneyUnmasks | modules/player.py:192-194 | storing `m XOR key` decodes to `m` |
| Player.CoinsUnmask | modules/player.py:196-198 | storing `c XOR (key & 0xFFFF)` decodes to `c` |
| Player.MoneyOfEncode | modules/player.py:192-194 | money survives encoding under any key |
| Player.CoinsOfEncode | modules/player.py:196-198 | coins survive encoding under any key |
| Player.RegisteredItemOfEncode | modules/player.py:200-206 | the registered item survives encoding |
| Player.Block2OfEncode | modules/player.py:173-190 | name, gender, trainer ID and secret ID survive encoding |
| Player.DecodeEncode | modules/player.py:173-206 | decoding what was encoded under any key gives back every field |
| Player.PlayerNeIsNegation | modules/player.py:161-171 | `Player.__ne__` is exactly `not __eq__`, and equality ignores the key |
| Player.EqualPlayersMayDifferInMoney | modules/player.py:161-165 | two players can compare equal yet decode to different money, because the key is not compared |
| HigherLevelActions.Game.MoveMapCursor | modules/modes/util/higher_level_actions.py:76-88 | the cursor ends on the target with nothing held; the log gains, per step of the cursor path, release-all, hold, frame, and a final release-all |
| HigherLevelActions.Game.ScrollMenu | modules/modes/util/higher_level_actions.py:377-382 | the menu ends on the target; the log gains one press and frame per entry of the scroll path; used with target 0 for the Buy loop (lines 277-279) |
| HigherLevelActions.Game.FlyTo | modules/modes/util/higher_level_actions.py:43-88 | a missing badge gives MissingBadge, a locked destination DestinationLocked, no party member with Fly NoFlyUser, checked in that order, and each leaves the game unchanged; the result is an error iff a check fails or the region is wrong; on success the Fly user is the first one in the party and the cursor is on the destination after the path's inputs |
| HigherLevelActions.FindFlyUser | modules/modes/util/higher_level_actions.py:49-59 | -1 iff no party member knows Fly; otherwise the lowest index of a member with a move named Fly |
| HigherLevelActions.FlyChecks | modules/modes/util/higher_level_actions.py:43-59 | errors in order (badge, destination flag, Fly user); success iff all hold, with the lowest Fly user |
| HigherLevelActions.CursorStep | modules/modes/util/higher_level_actions.py:77-86 | nothing iff on target; Right/Left iff x is below/above the target; Down/Up iff x matches and y is below/above |
| HigherLevelActions.CursorStepApproaches | modules/modes/util/higher_level_actions.py:77-87 | each step brings the cursor one tile closer |
| HigherLevelActions.CursorStepRuns | modules/modes/util/higher_level_actions.py:77-87 | one step takes one press off the run of its axis, x before y |
| HigherLevelActions.CursorPathShape | modules/modes/util/higher_level_actions.py:77-88 | the path is one horizontal press per column of difference, then one vertical press per row |
| HigherLevelActions.FishButton | modules/modes/util/higher_level_actions.py:119-131 | Select iff no fishing task; A iff the task state is 7, 10 or 15; B iff it is 11; nothing otherwise |
| HigherLevelActions.FishButtonByState | modules/modes/util/higher_level_actions.py:99-131 | by named state: A for WAIT_FOR_A, END_NO_MON and START_ENCOUNTER, B for NOT_EVEN_NIBBLE, nothing for the rest |
| HigherLevelActions.ChooseSlotButtons | modules/modes/util/higher_level_actions.py:161-174 | Right, then max(slot − 1, 0) Downs, then A |
| HigherLevelActions.PartyCursorAfterDowns | modules/modes/util/higher_level_actions.py:170-173 | Downs then A move the cursor one slot per Down |
| HigherLevelActions.ChooseSlotReachesSlot | modules/modes/util/higher_level_actions.py:161-174 | those buttons choose the requested slot, or slot 1 for a slot below 2 |
| HigherLevelActions.FirstClosed | modules/modes/util/higher_level_actions.py:208-211 | the first iteration whose start menu is closed, every earlier one open |
| HigherLevelActions.SaveConfirmsOncePerIteration | modules/modes/util/higher_level_actions.py:208-221 | the loop presses A exactly once per iteration with the start menu open |
| HigherLevelActions.SaveTheGame | modules/modes/util/higher_level_actions.py:208-223 | the inputs are those of the save loop over the observed iterations; finished iff the start menu closes among them |
| HigherLevelActions.ShoppingListCheckOk | modules/modes/util/higher_level_actions.py:264-270 | the list check passes iff every entry is buyable with a quantity in 0..99, and then yields the sum of quantity × price |
| HigherLevelActions.ShoppingListCheckErr | modules/modes/util/higher_level_actions.py:265-269 | a failing check reports the first bad entry, the item checked before the quantity |
| HigherLevelActions.BuyCheckOk | modules/modes/util/higher_level_actions.py:260-274 | the buy checks pass iff the shop menu is active, every entry is valid and the total is within the money; the total is then the full cost |
| HigherLevelActions.ValidateShoppingList | modules/modes/util/higher_level_actions.py:260-274 | the validation loop with its running total returns the result of the buy checks |
| HigherLevelActions.ScrollPathShape | modules/modes/util/higher_level_actions.py:290-295 | the scroll presses all go one way, one per entry of distance |
| HigherLevelActions.QuantityButton | modules/modes/util/higher_level_actions.py:304-310 | the coarse buttons (Left/Right) iff more than 7 away; the decreasing button of a pair (Left/Down) iff in reverse |
| HigherLevelActions.SellReverseScroll | modules/modes/util/higher_level_actions.py:406 | reverse iff twice the amount to sell exceeds the stack |
| HigherLevelActions.BuyReverseScroll | modules/modes/util/higher_level_actions.py:299 | buying scrolls in reverse iff the target amount is closer to 99 than to 1 |
| HigherLevelActions.AdjustQuantity | modules/modes/util/higher_level_actions.py:411-417 | each observed value before the first one on target gets one quantity-button press and a frame, in order, and nothing is logged after it; when the target never shows, every observed value gets its press; reached iff the target is observed |
| HigherLevelActions.FirstSlot | modules/modes/util/higher_level_actions.py:395 | the index of the first stack of the item |
| HigherLevelActions.TakeQuantity | modules/modes/util/higher_level_actions.py:421 | selling n of a stack lowers that item's quantity by n, leaves others alone and keeps every stack non-empty |
| HigherLevelActions.TakeOnlyThatItem | modules/modes/util/higher_level_actions.py:421 | selling n of a stack keeps the bag valid, lowers only that stack's item by n and leaves every other item's stock alone |
| HigherLevelActions.QuantityIsSumOfStacks | modules/modes/util/higher_level_actions.py:367 | the stock checked against the request is the sum of the item's stack sizes |
| HigherLevelActions.StacksOfTake | modules/modes/util/higher_level_actions.py:395-401 | selling n from the item's first stack shrinks the first stack size by n, dropping it when emptied, and leaves the other stack sizes as they were |
| HigherLevelActions.SellPlanSellsWholeStacksFirst | modules/modes/util/higher_level_actions.py:393-401 | with enough stock the plan sells exactly max(remaining, 0) items, each round but the last empties its whole stack, and the last sells at most its stack |
| HigherLevelActions.SellRound | modules/modes/util/higher_level_actions.py:395-401 | one round sells the smaller of the first stack and what is left, shrinks or removes that stack, keeps the bag valid and touches no other item |
| HigherLevelActions.SellPlanStep | modules/modes/util/higher_level_actions.py:393-401 | the plan is the round's sale followed by the plan for the stacks left after it |
| HigherLevelActions.SellStacks | modules/modes/util/higher_level_actions.py:391-421 | the sales are the sale plan over the item's stack sizes in bag order; exactly max(quantity, 0) items are sold, in positive amounts; the item's stock falls by that; other items are untouched |
| HigherLevelActions.SellListError | modules/modes/util/higher_level_actions.py:366-374 | no error iff every entry passes on its own against the unchanged bag |
| HigherLevelActions.ValidateSellList | modules/modes/util/higher_level_actions.py:362-374 | the shop-menu check, then the first failing entry (stock, key item, HM) |
| HigherLevelActions.DuplicateEntriesPassValidation | modules/modes/util/higher_level_actions.py:366-370 | a list that asks for more items than the bag holds, split over two entries, passes validation |
| HigherLevelActions.CumulativeValidationCoversStock | modules/modes/util/higher_level_actions.py:366-370 | with stock counted across entries, the whole list never asks for more of an item than the bag holds |
| HigherLevelActions.SellAllStep | modules/modes/util/higher_level_actions.py:391-393 | after each entry the rest of the list still validates and the stock still covers the requests so far |
| HigherLevelActions.SellAll | modules/modes/util/higher_level_actions.py:391-421 | after the corrected validation every entry's loop finds enough stock, and each item's stock falls by exactly what was requested |
| StaticGiftResets.FirstMatch | modules/modes/static_gift_resets.py:62-70 | the first table index whose map and position match, or none iff no entry matches |
| StaticGiftResets.TargetedEncounter | modules/modes/static_gift_resets.py:58-70 | none without a tile in front; otherwise a matching table entry, none iff no entry matches |
| StaticGiftResets.IsSelectable | modules/modes/static_gift_resets.py:79-80 | selectable iff the player faces a tile of the table |
| StaticGiftResets.TablesUnambiguous | modules/modes/static_gift_resets.py:36-56 | facing an entry's tile always yields that entry |
| StaticGiftResets.FossilCheck | modules/modes/static_gift_resets.py:147-162 | passes iff saved ∉ {0, 1} and live ≠ 0; "give a fossil first" iff live = 0; "save after giving" iff saved = 0 and live ≠ 0; "scientist not ready" iff both are 1; "save the game" iff saved = 1 and live ∉ {0, 1} |
| StaticGiftResets.FossilSavedButNotLive | modules/modes/static_gift_resets.py:147-151 | saved 1 with live 0 reports "give a fossil first" |
| StaticGiftResets.EggChecks | modules/modes/static_gift_resets.py:107-140 | no error iff the Wynaut (Mach Bike registered, egg not received) or Togepi (egg not received, Bicycle registered, a lead with friendship at least 255) requirements hold; each of the six errors iff its check is the first to fail; the warning is printed iff on Emerald for an egg gift without Flame Body or Magma Armor, unless a Wynaut check failed first |
| StaticGiftResets.EggChecksIgnoreAbilities | modules/modes/static_gift_resets.py:115-128 | which egg check fails does not depend on abilities |
| StaticGiftResets.GiftChecks | modules/modes/static_gift_resets.py:104-166 | success (with the target itself) iff the gift is on the saved map, its egg requirements hold, for the fossils the saved fossil state is past 0 and 1 and the live one is not 0, and the saved party has a free slot; NotInSavedMap iff off the map; an egg or fossil error is returned when it is the first check to fail; PartyFull iff only the party check fails |
| StaticGiftResets.GiftChecksIgnoreAbilities | modules/modes/static_gift_resets.py:115-128 | the gift checks' result does not depend on abilities |
| StaticGiftResets.RunChecks | modules/modes/static_gift_resets.py:97-166 | "not facing" iff no gift is targeted; "no saved game" iff targeted and no save; otherwise the gift checks' result, so success iff every requirement of the faced gift holds; a warning only on Emerald |
| StaticGiftResets.RunChecksOkMeans | modules/modes/static_gift_resets.py:107-162 | passing means every requirement of the faced gift holds in the saved game |
| StaticGiftResets.AbilityWarningNeverRaises | modules/modes/static_gift_resets.py:115-128 | changing only the party's abilities never changes the checks' result |
| StaticGiftResets.FossilStateOnlyForFossils | modules/modes/static_gift_resets.py:141-162 | the fossil values do not affect the checks for any other gift |
| StaticGiftResets.HatchEndpoints | modules/modes/static_gift_resets.py:219-227 | route endpoints iff the gift is Wynaut or Togepi; "unknown encounter type" otherwise |
| StaticGiftResets.HatchRouteOnGiftMap | modules/modes/static_gift_resets.py:219-225 | each egg's route lies on the map where the egg is given, between two different tiles |
| StaticGiftResets.StaticGiftResetsMode.constructor | modules/modes/static_gift_resets.py:82-84 | the hatch flag starts false |
| StaticGiftResets.StaticGiftResetsMode.OnEggHatched | modules/modes/static_gift_resets.py:86-94 | the flag is set iff the index is the last party slot (or was set); the stack is popped iff the creature is not of interest, which fails on an empty stack |
| StaticGiftResets.JudgeGift | modules/modes/static_gift_resets.py:260 | the gift is handled with auto-catch disabled, so the action is never Catch, and manual mode switches on iff it is handled as of interest |
| StaticGiftResets.ResetLoop | modules/modes/static_gift_resets.py:168-260 | each decision is the decision table for the judged gift with auto-catch disabled, so never Catch; in manual mode nothing happens; manual mode ends on iff some gift is handled as of interest, and the loop stops right after the first such gift, or when the gifts run out |
| StaticGiftResets.Run | modules/modes/static_gift_resets.py:96-260 | the checks run first; a failed check or an egg gift means no reset decisions and no state change; for any other gift the reset loop's properties hold of the decisions and the new state; no decision is ever Catch |
| DebugMenu.Without | modules/gui/debug_menu.py:228-229 | the kept listeners are exactly those of other classes |
| DebugMenu.WithoutAppend | modules/gui/debug_menu.py:229 | filtering keeps the original order |
| DebugMenu.CountOfWithout | modules/gui/debug_menu.py:228-229 | after filtering none of the class is left and every other class keeps its count |
| DebugMenu.WithoutIdempotent | modules/gui/debug_menu.py:228-229 | filtering twice is filtering once |
| DebugMenu.BotContext.EnableListener | modules/gui/debug_menu.py:224-225 | exactly one new instance goes in front and the rest is unchanged |
| DebugMenu.BotContext.DisableListener | modules/gui/debug_menu.py:228-229 | every instance of the class is removed, the others keep their order |
| DebugMenu.BotContext.Toggle | modules/gui/debug_menu.py:239-242 | afterwards exactly one instance of the class iff the variable is set, none otherwise; other classes keep their counts and order |
| DebugMenu.NextPhase | modules/gui/debug_menu.py:181-212 | idle to armed on a battle start, armed to in-battle on state BATTLE, in-battle to idle on leaving BATTLE |
| DebugMenu.PhaseCycle | modules/gui/debug_menu.py:181-212 | the phase stays or moves one step forward in the cycle |
| DebugMenu.ShinyCopy | modules/gui/debug_menu.py:187-205 | the copy is shiny, nicknamed CHEAT, with the same trainer ids |
| DebugMenu.ForceShinyEncounterListener.constructor | modules/gui/debug_menu.py:173-175 | a new listener is idle |
| DebugMenu.ForceShinyEncounterListener.HandleFrame | modules/gui/debug_menu.py:180-212 | the phase advances by one frame; the opponent is rewritten iff the step is idle to armed, both trainer ids match the player's and it is not shiny |
| DebugMenu.RewritesOver | modules/gui/debug_menu.py:180-206 | counts the frames on which the listener takes the idle-to-armed step, the only step that may rewrite the opponent; the bound on that count is RewritesBoundedByBattles |
| DebugMenu.RewritesBoundedByBattles | modules/gui/debug_menu.py:180-212 | over any sequence of frames the rewrites number at most the battle frames, plus one when the phase starts unarmed |
| DebugMenu.AtMostOneRewriteWithoutBattle | modules/gui/debug_menu.py:181-182 | frames with no battle rewrite at most once |
| DebugMenu.MatchCallRewrite | modules/gui/debug_menu.py:216-221 | packing fails iff minutes − 30 is outside the uint32 range; otherwise the first four bytes hold minutes − 30, and an 8-byte state keeps bytes 4, 5 and 7 with 0x70 at byte 6 |
| DebugMenu.MatchCallRewriteIdempotent | modules/gui/debug_menu.py:217-221 | rewriting twice at the same clock is rewriting once |
| DebugMenu.GiveTestParty | modules/gui/debug_menu.py:87-96 | nothing is written iff confirmation is asked and refused; otherwise the first 6 − n members followed by the n test members |
| DebugMenu.GiveTestPartyShape | modules/gui/debug_menu.py:90-96 | the party has at most six members, starts with old members in order, ends with the test members, and is the old party plus the test members when no confirmation was needed |
| DebugMenu.NormalizeSeparators | modules/gui/debug_menu.py:82 | every backslash becomes '/', nothing else changes |
| DebugMenu.LastComponent | modules/gui/debug_menu.py:82 | the suffix after the last '/', with no '/' in it |
| DebugMenu.UnchangedWithoutSeparators | modules/gui/debug_menu.py:82 | a stretch with no separator after normalising is unchanged from the original path |
| DebugMenu.FileName | modules/gui/debug_menu.py:137 | a suffix of the path with neither separator, preceded by a separator unless it is the whole path |

## Left out

- The GUI (menus, file choosers, the browser, confirmation dialogs) is left out. A confirmation answer is a parameter.
- Save-state writing, the real-time clock, desktop notifications, `.pk3` export and console output are left out. The handler records the sink calls as `Effect` values, in order.
- Memory reads (event flags and variables, tasks, symbols, the saved game) are parameters. So are emulator input injection and the game's response to it.
- Values polled every frame are given sequences, one per iteration. A routine whose sequence runs out stops where the source would keep polling.
- The menu navigators, `navigate_to`, `follow_waypoints`, `soft_reset`, the `wait_*` helpers and `scroll_to_item_in_bag` are not part of this model. Neither are the A presses and frame waits between the modelled loops.
- The hatch walk is left out. Only its endpoints and the callback's effect on the flag are modelled.
- The mart's item-list scroll (lines 288-295 of `higher_level_actions.py`) is modelled only as `ScrollPath`. The quantity prelude presses (Down twice before a reverse scroll) are not logged.
- HigherLevelActions.AdjustQuantity: does not claim the loop reaches the target, because that depends on how the game's dialogue answers each press.
- HigherLevelActions.Game.MoveMapCursor: assumes the region-map cursor moves one tile per held frame. The real cursor speed is the game's.
- HigherLevelActions.Game.ScrollMenu: models the Buy loop `while position > 0: Up` as scrolling to 0. The two agree because a scroll position is never negative.
- `assert_save_game_exists`, `assert_registered_item` and `assert_empty_slot_in_party` are not part of this model. Their outcomes are booleans of the saved game.
- StaticGiftResets.Run: the reset loop takes the creatures of successive resets as a given sequence. The egg branch returns right after the checks.
- Indexing an empty saved party for Togepi raises in Python. The model reports it as its own error, `NoLeadInSavedParty`.
- Encounter.LogEncounter: the stats module is not part of this model. Its `log_encounter` is assumed to make the creature the last encounter, and the stats printout is left out.
- Encounter.EncounterMessage: the fun-facts line is a parameter. Nature, ability, item, IV sum, shiny value and the Wurmple line come from objects not part of this model.
- The dynamic loading of the custom catch filter and its cache are left out. The filter and the plugin hook are function parameters.
- Player.NameBytes: the character decoding of the name is not part of this model. The name is its eight raw bytes.
- The `to_dict` views, `RunningState`, `TileTransitionState`, `AcroBikeState` and the `state_cache` updates are left out. They state nothing the bot decides on.
- DebugMenu.ForceShinyEncounterListener.HandleFrame: the new opponent is the old one with its shiny flag and nickname changed. Rebuilding the creature's data is not part of this model.
- The listeners' finalisers (`__del__`) are not modelled: they disable the listener class again when a dropped instance is freed, which DebugMenu.WithoutIdempotent shows changes nothing right after a disable, and the repel listener's finaliser also resets the repel step count, which is not part of this model.
- The other debug actions (item pack, RTC, flag import and export, editors, the other listeners' memory writes) are left out. Only their file-name reporting is modelled.

## Findings

| source | as written | input that shows it | evidently intended | confidence | as-written member | corrected member |
|---|---|---|---|---|---|---|
| modules/player.py:74 | the third disjunct of `PlayerAvatar.__ne__` compares the map group and number with `==` | any avatar `a`: `a == a` and `a != a` are both true | `!=`, so that `__ne__` is the negation of `__eq__` | high; not executed | Player.AvatarNeOfItself | Player.AvatarNeIntendedIsNegation |
| modules/modes/util/higher_level_actions.py:366-370 | each entry's quantity is checked against the whole bag on its own | a bag with 5 Nuggets and the list (Nugget, 3), (Nugget, 3) passes validation; the sell loop then runs out of Nuggets | count the quantities requested so far for the same item | medium; not executed | HigherLevelActions.DuplicateEntriesPassValidation | HigherLevelActions.CumulativeValidationCoversStock |
