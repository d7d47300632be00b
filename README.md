# GiftGo client core in Dafny

GiftGo is a Telegram Web App spin game. The player picks a bet (low, medium, high, ultra), the
client asks the server (or, in demo mode, a local generator) for a result, animates a reel of gifts
that stops on the winning gift, and charges or refunds the bet. Around the game sit a task
system with countdown timers persisted in `localStorage`, level arithmetic over experience points,
verifiers for subscription, activity and experience tasks, translations, and a check that the page
really runs inside Telegram.

This project models that client logic. Everything the browser provides becomes an explicit input:
`fetch` replies (a reply that threw is `None`), `Date.now()`, `Math.random()` draws (a function from
a draw counter to a real in `[0, 1)`), and the DOM and `window` fields the code reads.

| file | module | models |
|---|---|---|
| js.dfy | `Js` | JavaScript semantics the rest relies on: truthiness, `a || b`, `Number#toString`, `parseInt` with a radix, `String#split`/`Array#join` |
| key_list.dfy | `KeyList` | `JSON.stringify`/`JSON.parse` of the active-timer key list |
| timer_manager.dfy | `TimerManager` | TimerManager.js as functions over a `Registry` value: the storage map, the in-memory deadline map in insertion order, the running countdown tickers and the cleanup interval |
| timer_store.dfy | `TimerStore` | the class `TimerRegistry`, whose fields the TimerManager.js operations update in place; each method is proved equal to its function |
| game_logic.dfy | `GameLogic` | game-logic.js: weighted selection, the reel sequence, per-bet filtering and normalisation, the demo result, and the repair of a server result |
| animations.dfy | `Animations` | the module-level `animationState`, the one-shot completion timer, skip, and the reel items |
| app.dfy, game_app.dfy | `App`, `GameApp` | the game-state machine of app.js as a `World` value, and the class `Game` whose methods follow it |
| experience.dfy | `Experience` | `calculateLevelData` and `getProgressBarOffset` |
| experience_verifier.dfy | `ExperienceVerifier` | `checkExperience`, `checkLevelAchievement` |
| user_data.dfy | `UserData` | bet costs, the spin gate, the per-spin charge, the balance read from the page, the top-up guard and the auto-start rule |
| i18n.dfy | `I18n` | language normalisation and choice, placeholders, the dotted-key lookup `t`, the cache age checks and the version bump |
| ui_utils.dfy | `UiUtils` | `hexToRgb`, `formatNumber`, `formatGiftPrice`, the frame count of `animateBalance` |
| task_card.dfy | `TaskCard` | the timer, button, loader and progress-text rules of `renderTaskCard`, and `isUrgent` |
| subscription_verifier.dfy | `SubscriptionVerifier` | the reply handling of `checkSubscription` and the `t.me` deep-link fallback |
| activity_verifier.dfy | `ActivityVerifier` | `checkAppActivity` and `checkGamesPlayed` |
| telegram_auth.dfy | `TelegramAuth` | the Telegram environment check, the refusal classification, the request headers and the current user |

Where the code and its accompanying notes disagree, the model follows the code:

- `generateSequenceWithWinningGift(g, w, n)` builds `floor(n/2)` fillers, the winner, then
  `floor(n/2)` more. For an even `n` that is `n + 1` elements, not `n - 1`.

## Model

| member | source | states |
|---|---|---|
| Js.Or | SubscriptionVerifier.js:28 | `a \|\| b` on optional strings is truthy iff either side is, and is `a` whenever `a` is truthy |
| Js.IntToString | ui-utils.js:118-120 | the decimal text of an integer is non-empty and starts with '-' exactly for negatives |
| Js.ParseIntOfIntToString | TimerManager.js:32 | `parseInt` (radix 10 or none) reads back every integer that `String(n)` wrote, which is how a stored deadline is recovered |
| Js.JoinSplit | i18n.js:380 | joining the pieces of `split(sep)` gives back the string, and no piece holds the separator |
| Js.SplitJoin | i18n.js:380 | splitting a join of separator-free pieces gives back the pieces |
| KeyList.DecodeEncode | TimerManager.js:61-64 | `JSON.parse` of the list `saveActiveTimers` writes gives back exactly the saved key list |
| TimerManager.ClearTimer | TimerManager.js:140-155 | clearing a timer keeps the registry consistent |
| TimerManager.SetExpiredFlag | TimerManager.js:111-134 | setting the expired flag keeps the registry consistent |
| TimerManager.SetTimer | TimerManager.js:73-104 | arming a timer keeps the registry consistent: the key order of the in-memory Map lists each of its keys exactly once |
| TimerManager.CheckTimerConsistent | TimerManager.js:163-204 | reading a timer, with its lazy hydration and expiry, keeps the registry consistent |
| TimerManager.RunningShape | TimerManager.js:163-204 | a read reports a running timer exactly when the key has no expired marker and its deadline, taken from the Map or else from storage, lies after now; the hydrated registry is returned with the time left |
| TimerManager.HydrateStable | TimerManager.js:172-182 | a deadline read from storage into the Map is found there by the next read, and the expired marker is untouched |
| TimerManager.Tick | TimerManager.js:264-305 | a countdown tick keeps the registry consistent |
| TimerManager.Init | TimerManager.js:20-56 | startup reconciliation keeps the registry consistent |
| TimerManager.DueIds | TimerManager.js:319-341 | the keys the sweep collects are exactly the listed keys whose deadline is at or before now, without repeats |
| TimerManager.CheckAllTimers | TimerManager.js:319-341 | the sweep keeps the registry consistent |
| TimerManager.CleanupExpiredTimers | TimerManager.js:347-366 | the periodic cleanup keeps the registry consistent |
| TimerManager.Destroy | TimerManager.js:371-384 | after destruction the registry is consistent |
| TimerManager.MarkerAliasesDeadline | TimerManager.js:7-9 | the expired marker of `a` and the deadline entry of `b` share a storage key iff `b` is `"expired_" + a` |
| TimerManager.FalsyTimerRefused | TimerManager.js:74-77 | an empty task id or a zero deadline returns false and changes nothing |
| TimerManager.PastDeadlineExpires | TimerManager.js:80-89 | a deadline at or before now returns true and leaves the expired marker, no deadline entry, no index entry and no ticker; a later read says expired |
| TimerManager.FutureDeadlineRecorded | TimerManager.js:92-96 | a future deadline is stored as text that reads back to it, put in the index, ticking iff a card shows it, and the saved list decodes to the index's keys |
| TimerManager.SetThenCheck | TimerManager.js:163-204 | reading a freshly armed timer reports expired at or after the deadline and otherwise the time left `deadline - now` |
| TimerManager.RearmedExpiredStaysExpired | TimerManager.js:165-169 | re-arming a key that carries the expired marker keeps the marker, and a read still says expired |
| TimerManager.ClearAbsentTimer | TimerManager.js:140-155 | clearing an absent key only re-saves the list |
| TimerManager.ExpireTwice | TimerManager.js:111-117 | setting the expired flag twice is the same as once |
| TimerManager.CountdownReadsBack | TimerManager.js:279-286 | the countdown text is `HH:MM:SS` with zero-padded fields whose values read back as whole hours, minutes under 60 and seconds under 60, together within one second of the time left |
| TimerManager.TickAfterDeadline | TimerManager.js:264-276 | a tick at or after the deadline stops the ticker, drops the deadline and leaves the key expired |
| TimerManager.TickBeforeDeadline | TimerManager.js:279-304 | a tick before the deadline changes nothing and shows the countdown with its urgency |
| TimerManager.CorruptListDropped | TimerManager.js:45-49 | an unparseable active list is deleted, the cleanup interval starts, and nothing else changes |
| TimerManager.InitLoadsOnlyLater | TimerManager.js:28-36 | after startup every deadline in the index lies after now |
| TimerManager.InitExpiresPassed | TimerManager.js:36-40 | a listed key whose stored deadline has passed gets the expired marker and loses its deadline entry |
| TimerManager.InitSingle | TimerManager.js:20-42 | startup with one listed timer loads it when it lies ahead and otherwise turns it into the expired marker |
| TimerManager.ReloadKeepsDeadline | TimerManager.js:20-104 | a timer armed, then reloaded with the page, reads as the same deadline, or as expired once the deadline has passed at any step |
| TimerManager.SweepExpiresExactlyDue | TimerManager.js:347-366 | the sweep removes exactly the index entries due at now, keeps the others unchanged, and leaves each removed key expired without a ticker |
| TimerManager.SweepsAgree | TimerManager.js:319-366 | `checkAllTimers` and `cleanupExpiredTimers` do the same thing |
| TimerManager.DestroyKeepsStorage | TimerManager.js:371-384 | destruction empties the index and the tickers, stops the cleanup and leaves storage untouched |
| TimerStore.TimerRegistry.SaveActiveTimers | TimerManager.js:61-64 | the method writes the key list as the function says |
| TimerStore.TimerRegistry.ClearTimer | TimerManager.js:140-155 | the in-place update equals `TimerManager.ClearTimer` and keeps the class invariant |
| TimerStore.TimerRegistry.SetExpiredFlag | TimerManager.js:111-134 | the in-place update equals `TimerManager.SetExpiredFlag` |
| TimerStore.TimerRegistry.RenderTimer | TimerManager.js:212-262 | starting a ticker records it as the function says |
| TimerStore.TimerRegistry.SetTimer | TimerManager.js:73-104 | the in-place update and its result equal `TimerManager.SetTimer` |
| TimerStore.TimerRegistry.CheckTimer | TimerManager.js:163-204 | the in-place update and the status equal `TimerManager.CheckTimer` |
| TimerStore.TimerRegistry.FireTicker | TimerManager.js:264-305 | one firing of the 1 s interval equals `TimerManager.Tick` |
| TimerStore.TimerRegistry.InitTimerManager | TimerManager.js:20-56 | the reconciliation loop equals `TimerManager.Init` |
| TimerStore.TimerRegistry.CheckAllTimers | TimerManager.js:319-341 | the collect-then-expire loops equal `TimerManager.CheckAllTimers` |
| TimerStore.TimerRegistry.ExpireDue | TimerManager.js:324-330 | the first `forEach` expires exactly the due keys, in Map order, and returns them as `TimerManager.DueIds` |
| TimerStore.TimerRegistry.CleanupExpiredTimers | TimerManager.js:347-366 | the collect-then-expire loops equal `TimerManager.CleanupExpiredTimers` |
| TimerStore.TimerRegistry.DestroyTimerManager | TimerManager.js:371-384 | the teardown equals `TimerManager.Destroy` |
| TimerStore.CollectDue | TimerManager.js:321-330 | the `forEach` collection returns exactly `TimerManager.DueIds` |
| GameLogic.Find | game-logic.js:332-335 | a gift is found iff its id is in the catalogue |
| GameLogic.Weights | game-logic.js:42-48 | each gift's weight is `chance` when attractive chances are used, otherwise `originalChance` unless it is undefined; a number adds itself, null adds 0, and undefined or NaN make the sum NaN |
| GameLogic.Select | game-logic.js:37-85 | a selection that succeeds returns one of the listed gifts, and one that fails fails with a TypeError |
| GameLogic.SelectThrows | game-logic.js:54-78 | a list of at most ten gifts with a chance that is not a number throws (the debug listing prints every chance); a non-empty list with no null chance succeeds when it has more than ten gifts or only number chances |
| GameLogic.NullFirstThrows | game-logic.js:66-78 | in a list of more than ten gifts whose first chance is null and whose sum is a number, a zero draw stops the scan at that gift and printing its chance throws |
| GameLogic.ChosenIsFirstReaching | game-logic.js:66-81 | the scan breaks at the first gift whose running total reaches the scaled draw, and does not break when none does |
| GameLogic.FiniteWeightsReach | game-logic.js:68-81 | with finite non-negative weights some running total reaches the draw, so the fallback is not taken |
| GameLogic.SelectRandomGiftByChance | game-logic.js:37-85 | the summing loop, the debug listing of a short list and the scanning loop return exactly `GameLogic.Select`, throwing where it throws |
| GameLogic.Filler | game-logic.js:204-216 | every filler is the id of the gift at the drawn index |
| GameLogic.Sequence | game-logic.js:197-219 | the sequence is built iff no filler is needed or some gift exists (indexing an empty list throws); its length is `2 * floor(n/2) + 1` and the winner sits at `floor(n/2)` |
| GameLogic.SequenceShape | game-logic.js:197-219 | the winner is at the centre `length / 2`, and every other element is an id of the catalogue |
| GameLogic.DefaultSequence | game-logic.js:197 | by default the sequence has 41 elements with the winner at index 20 |
| GameLogic.GenerateSequenceWithWinningGift | game-logic.js:197-219 | the push loops return exactly `GameLogic.Sequence` and use one draw per filler |
| GameLogic.PushDrawn | game-logic.js:203-206 | each push loop appends exactly `count` ids drawn by index from the listed gifts, one draw each, in draw order |
| GameLogic.DefaultChance | game-logic.js:158-163 | a missing chance defaults to a value within [1, 20] |
| GameLogic.DefaultChanceAntitone | game-logic.js:158-163 | the default chance is inversely related to the price: a dearer gift never gets a larger default chance |
| GameLogic.DefaultChanceValues | game-logic.js:158-163 | no star count or 0 gives 20; 1 to 5 stars give 20; 5 to 100 stars give 100 / star_count; 100 stars or more, or a negative count, give 1 |
| GameLogic.Aliased | game-logic.js:166-172 | `animation` falls back to `animation_path` and `gift_type` to `type`, and nothing else changes |
| GameLogic.AliasAll | game-logic.js:107-125 | every gift is copied with its aliases filled, in order |
| GameLogic.EmptyWheelOffersAll | game-logic.js:101-125 | an empty wheel list offers every gift, with aliases filled |
| GameLogic.WheelOffersExactly | game-logic.js:130-187 | a non-empty wheel list offers exactly the gifts whose id is on it, each a normalised copy of an input gift |
| GameLogic.NormalizedChance | game-logic.js:138-182 | the bet's chance overrides the gift's when it is of type number, a chance that is not a number other than NaN takes the default, `originalChance` falls back to the chance and `gift_type` to the bet's or gift's type |
| GameLogic.DemoResultShape | game-logic.js:227-272 | the demo result throws iff no gift is offered or the draw throws, and with a wheel for the bet (or only number chances) iff no gift is offered; otherwise it is a success whose 41-element sequence centres the drawn gift and whose id is the time |
| GameLogic.OfferPrintable | game-logic.js:101-187 | every chance on offer is a number when the bet has a wheel, or when every catalogue chance is one |
| GameLogic.WheelChancesNumeric | game-logic.js:157-163 | every gift offered from a wheel has a chance that is a number other than NaN |
| GameLogic.SetGiftId | game-logic.js:358-360 | writing `gift_id` on the catalogue's gift keeps the catalogue's ids |
| GameLogic.EnsureSequence | game-logic.js:326-329 | a non-empty sequence is kept and uses no draw |
| GameLogic.Recentred | game-logic.js:350-355 | the repaired sequence has the winner at its centre, and an already centred one is left as is |
| GameLogic.Finish | game-logic.js:350-381 | the repaired result is centred on its type, carries the winning id and a gift whose `gift_id` is the type; an already sound result comes back unchanged |
| GameLogic.ValidateNull | game-logic.js:317 | a null result stays null and changes nothing |
| GameLogic.RepairCentresWinner | game-logic.js:315-381 | every repaired result has a gift and a sequence centred on `winning_gift_type`, and when that type is non-empty the gift's `gift_id` is that type |
| GameLogic.RepairIdempotent | game-logic.js:358-380 | repairing a repaired result whose type is non-empty changes nothing and draws nothing |
| Animations.Highlight | animations.js:243-262 | only the item at the index is marked winning, keeping its gift |
| Animations.AlignedReel | animations.js:66-87 | when every id is in the catalogue the reel has one item per id and only the centre is winning |
| Animations.MissingGiftShiftsReel | animations.js:71-78 | with one id missing from the catalogue the item at the centre index is a different gift and is not winning, so the highlight marks the wrong gift |
| Animations.PlaceholderElementsUpTo | animations.js:66-87 | with a placeholder for missing gifts the reel keeps one item per id and only the centre is winning |
| Animations.PlaceholderReelCentred | animations.js:243-262 | with placeholders the highlighted centre item is the winner and no other item is winning |
| Animations.Cancelled | animations.js:29-36 | cancelling clears the pending timer and the timer handle |
| Animations.IdlePicks | animations.js:503-519 | idle items are drawn gifts, with their price, never winning |
| Animations.EventsKeepSound | animations.js:22-235 | animating, skipping and the timer callback keep the animation state sound: at most the one tracked timer is pending |
| Animations.OneTimerAtMost | animations.js:9-13 | a sound state has at most one pending timer, and it is the tracked `spinTimer` |
| Animations.PendingTimerCompletes | animations.js:201-211 | a pending timer that fires completes with the stored gift and highlights the centre |
| Animations.SkipSilencesTimer | animations.js:663-677 | skipping sets `skipTriggered`, drops `spinTimer`, records the time, and no timer then completes |
| Animations.CompletesOnce | animations.js:201-235 | after one completion no later firing completes again |
| Animations.AnimateSchedulesCompletion | animations.js:22-212 | with full data, animation resets the skip flags, builds the reel and schedules one timer that completes with the winning gift at the centre |
| Animations.AnimateMissingData | animations.js:39-43 | missing sequence, type or gift reports failure at once and schedules nothing |
| Animations.SavedDisplayKept | animations.js:468-474 | with a saved position and content, and no force, the display keeps its content and draws nothing |
| Animations.IdleReel | animations.js:476-519 | otherwise the idle reel is 20 items, its second half a copy of the first, or empty when no gift is offered |
| Animations.AnimationState.CancelSpinTimer | animations.js:29-32 | the method equals `Animations.Cancelled` |
| Animations.AnimationState.MarkAnimationSkipped | animations.js:663-677 | the method performs the skip the function defines |
| Animations.AnimationState.Take | animations.js:201-205 | taking a timer returns its completion and removes it |
| Animations.AnimationState.ReleaseSpinTimer | animations.js:210 | the method equals the end of the callback |
| Animations.LotteryItems.StopIdleAnimation | animations.js:765-774 | the idle flag is cleared and nothing else changes |
| Animations.LotteryItems.CreateLotteryElements | animations.js:66-150 | the reel items become `Animations.LotteryElements` |
| Animations.LotteryItems.PositionLotteryForWinningItem | animations.js:684-722 | the reel is positioned as the function says |
| Animations.LotteryItems.InitLotteryDisplay | animations.js:468-519 | the display update and the draws used equal the function |
| Animations.AnimateLottery | animations.js:22-57 | the two objects change exactly as `Animate` says |
| Animations.FireSpinTimer | animations.js:201-211 | the two objects change exactly as `FireBegin` says |
| App.FinishOnce | app.js:755-803 | finishing stops the spin, refunds the bet only on failure outside demo mode, throws on success at line 799, and a second call does nothing |
| App.GameResultShape | app.js:805-865 | a refused reply outside demo mode yields no result, and any result is a success centred on its winning type with a gift |
| App.ValidatedShape | app.js:850-859 | the repair of a reply yields no result for a non-success, and otherwise a centred result |
| App.LaunchFacts | app.js:672-752 | after a result arrives the invariant holds, and the balance is back to the start unless the spin is still running |
| App.BeginFacts | app.js:641-670 | a blocked spin changes nothing; otherwise the spin starts, and the bet is charged only once a result is there |
| App.SpinKeepsInv | app.js:641-716 | a spin (direct, intended or through `window.spinLottery`) keeps the game invariant |
| App.IntendedSpinCharge | app.js:641-694 | in the intended flow the balance drops by the bet cost exactly when a spin starts outside demo mode, and is unchanged otherwise |
| App.RefundWithoutCharge | app.js:667-670 | a cooldown reply refunds a bet that was never charged, so the balance grows by the bet cost (the refund is at lines 790-795) |
| App.FireKeepsInv | app.js:988-999 | the completion timer keeps the game invariant |
| App.SkipKeepsInv | app.js:1124-1175 | the skip button keeps the game invariant |
| App.CompletesOnce | app.js:1124-1175 | skip and timer completion each end the spin and open the win modal, and afterwards neither does anything |
| App.CompletionLeavesResult | app.js:799 | the completion throws at line 799, so `lastGameResult` and `spinTimer` stay set |
| App.IntendedCompletionClears | app.js:799-801 | in the intended flow completion clears the result and the timer, ends the spin and opens the win modal |
| App.ControlsKeepInv | app.js:1067-1118 | bet selection, the demo toggle, the checkbox and closing the win modal keep the invariant |
| App.AwaitingIgnoresInput | app.js:1067-1118 | while a spin waits for its result every bet or demo input is ignored, and so are skip and a new spin (lines 643 and 1126) |
| App.NewBetRedraws | app.js:1077-1096 | a different bet when idle switches the bet and redraws the idle reel |
| App.AnnounceFacts | app.js:900-918 | each group announces the ready tasks not yet shown, once each, and marks them shown |
| App.ResetsFacts | app.js:961-967 | completed tasks and tasks below 100 % lose their shown flag |
| App.NotifyFacts | app.js:868-974 | an update announces exactly the ready tasks not shown before, once each, then clears the flags of finished or regressed tasks |
| App.SecondUpdateSilent | app.js:900-918 | the same reply a second time announces nothing |
| App.DemoSkipsTasks | app.js:870-872 | demo mode skips the update entirely |
| GameApp.Game.SetupLotteryDisplay | app.js:397-404 | the method equals `App.Setup` |
| GameApp.Game.FinishSpinning | app.js:755-803 | the method and its exception equal `App.FinishSpinning` |
| GameApp.Game.Validate | app.js:850-859 | the method equals `App.Validated` |
| GameApp.Game.GetGameResult | app.js:805-865 | the method equals `App.GetGameResult` |
| GameApp.Game.TakeDemo | app.js:810-811 | the demo branch equals `App.TakeDemo`: a thrown demo result gives null, otherwise the result is repaired |
| GameApp.Game.HandleSpinCompletion | app.js:988-999 | the method equals `App.HandleSpinCompletion` |
| GameApp.Game.Launch | app.js:672-687 | the method equals `App.Launch` |
| GameApp.Game.BeginSpin | app.js:641-670 | the method equals `App.Begin` |
| GameApp.Game.SpinLottery | app.js:641-694 | the method equals `App.SpinLottery` |
| GameApp.Game.WindowSpinLottery | app.js:696-716 | the method equals `App.WindowSpinLottery` |
| GameApp.Game.FireSpinTimer | animations.js:201-211 | the method equals `App.FireSpinTimer` |
| GameApp.Game.SkipAnimation | app.js:1124-1175 | the method equals `App.SkipAnimation` |
| GameApp.Game.SelectBet | app.js:1067-1096 | the method equals `App.SelectBet` |
| GameApp.Game.ToggleDemo | app.js:1099-1106 | the method equals `App.ToggleDemo` |
| GameApp.Game.DemoCheckbox | app.js:1108-1118 | the method equals `App.DemoCheckbox` |
| GameApp.Game.AnnounceGroup | app.js:900-918 | the loop equals `App.Announce` |
| GameApp.Game.ResetNotificationFlags | app.js:961-967 | the loop equals `App.Resets` |
| GameApp.Game.UpdateTasksProgress | app.js:868-974 | the method equals `App.UpdateTasksProgress` |
| Experience.Requirement | experience.js:17-33 | every level needs at least 100 points |
| Experience.Climb | experience.js:17-37 | the climb stops at the level whose threshold is reached and whose next one is not |
| Experience.LevelOf | experience.js:13-48 | the level is at least 1, the points before it plus the points into it are the clamped experience, and the points into it stay below its requirement |
| Experience.LevelCharacterised | experience.js:17-37 | the level is the one whose threshold is reached and whose next threshold is not, and the totals are the requirement and threshold of that level |
| Experience.LevelMonotone | experience.js:28-34 | more experience never gives a lower level |
| Experience.ProgressBounds | experience.js:37-39 | progress lies in [0, 100) |
| Experience.FirstLevels | experience.js:14-34 | requirements start 100, 120, 150; negative experience counts as 0; 99, 100, 219 and 220 give levels 1, 2, 2 and 3 |
| Experience.CalculateLevelData | experience.js:13-48 | the while loop returns exactly `Experience.LevelOf` |
| Experience.ProgressBarOffset | experience.js:79-81 | the offset is "35px" iff the level is at least 10, else "30px" |
| Experience.WideOffsetFrom | experience.js:79-81 | the wide offset starts at 2460 experience points |
| ExperienceVerifier.CheckLevelAchievement | ExperienceVerifier.js:14-17 | a missing user id fails |
| ExperienceVerifier.CheckExperience | ExperienceVerifier.js:44-50 | only `reach_level` tasks can pass, and they defer to the level check |
| ExperienceVerifier.AchievementByThreshold | ExperienceVerifier.js:24-31 | the check passes iff experience reaches the threshold of the required level |
| ExperienceVerifier.AchievementStays | ExperienceVerifier.js:28-31 | once passed, more experience still passes |
| ExperienceVerifier.DefaultTaskFrom220 | ExperienceVerifier.js:25-31 | with no required level (default 3) the check passes iff experience is at least 220 |
| UserData.CostsRise | user-data.js:13-18 | the costs are 25, 50, 100 and 250, rising strictly from low to ultra, and bet names are distinct |
| UserData.DigitsOf | user-data.js:565 | the digits of the balance text are digits and include every digit of the text |
| UserData.BalanceFromText | user-data.js:556-568 | without a stored value the balance is the number the text's digits spell, or none |
| UserData.DigitsOfAppend | user-data.js:565 | removing the non-digits of `a + b` gives the digits of `a` followed by those of `b` |
| UserData.DigitsOfDigits | user-data.js:565 | a text made only of digits is left unchanged |
| UserData.DigitsOfNone | user-data.js:565 | a text with no digit becomes empty, so its balance reads as NaN |
| UserData.SpacedGroups | user-data.js:565 | two digit groups separated by a space read as the two groups joined |
| UserData.SpacedBalance | user-data.js:556-568 | the displayed text "1 250" gives the digits "1250" and the balance 1250 |
| UserData.CanStartSpin | user-data.js:578-635 | a spin may start iff nothing spins and (demo mode, an unreadable balance, or enough balance); otherwise it is busy or short by a positive amount |
| UserData.ChargeSpin | user-data.js:644-655 | demo mode charges nothing; otherwise the cost is positive and leaves the balance, and the spin count grows by one |
| UserData.UserRecord.UpdateUserStatsForSpin | user-data.js:644-655 | the in-place update and the returned cost equal `UserData.ChargeSpin` |
| UserData.GetUserLevelData | user-data.js:1266-1309 | the repeated loop agrees with `Experience.LevelOf` on `exp \|\| 0` |
| UserData.TelegramHeaders | user-data.js:37-48 | the JSON content type is always sent, and the initData header exactly when initData is truthy |
| UserData.TopUpAmount | user-data.js:674-680 | an accepted top-up is an integer in [1, 10000] that `parseInt` reads from the input |
| UserData.TopUpAccepts | user-data.js:674-680 | a written integer is accepted iff it lies in [1, 10000] |
| UserData.AutoStart | user-data.js:853-871 | the spin auto-starts iff the flag is on, a bet is pending and the new balance covers it; the pending bet is cleared whenever the flag is on |
| I18n.Lower | i18n.js:465 | lowercasing maps A-Z and keeps every other character |
| I18n.NormalizeLanguageCode | i18n.js:456-495 | the result is always "ru" or "en" |
| I18n.NormalizeCharacterised | i18n.js:456-495 | the result is "ru" iff the code is truthy and its lowercase base is one of ru, uk, be, kk, ky, uz, tg, az, hy, ro; normalising twice equals once |
| I18n.RegionIgnored | i18n.js:465 | a region suffix after '-' does not change the result |
| I18n.CaseIgnored | i18n.js:465 | letter case does not change the result |
| I18n.LanguageSticks | i18n.js:96-103 | the language is `languageCode \|\| saved \|\| 'en'`, normalised, and choosing again from what was saved gives the same language |
| I18n.WordRun | i18n.js:445 | the run is the longest prefix of word characters |
| I18n.MatchAt | i18n.js:445 | a match spans the name plus its four braces |
| I18n.UnknownPlaceholdersKept | i18n.js:444-448 | text that mentions no provided name comes back unchanged |
| I18n.PlaceholderReplaced | i18n.js:444-448 | `{{name}}` anywhere in a text becomes its value when one is provided and stays verbatim otherwise, and the text before and after it is replaced as if it stood alone |
| I18n.ScanBeforeBrace | i18n.js:444-448 | no placeholder match runs across a following `{{`, so the replacement of a text followed by one is the replacement of each part |
| I18n.WordRunAppend | i18n.js:445 | the `\w+` run is cut by the first non-word character, whatever follows it |
| I18n.T | i18n.js:372-436 | the key walk returns exactly `I18n.Translate` |
| I18n.FallbackCases | i18n.js:374-427 | no translations, a one-segment key or a missing path give `defaultValue \|\| key`, and a found value is returned as is when there are no placeholders |
| I18n.StopsAtFirstString | i18n.js:404-421 | a longer key below a string returns that string |
| I18n.SectionEntry | i18n.js:395-403 | a two-segment key returns the entry of its section |
| I18n.CacheChecksAgree | i18n.js:301-343 | the cache is used iff it is not expired, yielding its data, and a stamped entry is fresh iff it is at most 12 h old |
| I18n.PatchBumped | i18n.js:44-49 | an `X.Y.Z` version becomes `X.Y.(Z+1)` |
| I18n.ShippedVersion | i18n.js:25-49 | the shipped "1.1.1416" becomes "1.1.1417" |
| UiUtils.RemoveFirst | ui-utils.js:79 | removing the first '#' removes one character when there is one and nothing otherwise |
| UiUtils.Doubled | ui-utils.js:88-90 | every character of the short form is doubled, in order |
| UiUtils.ByteValue | ui-utils.js:93-98 | two hex digits give a value in 0..255 |
| UiUtils.SixDigitsDecoded | ui-utils.js:77-101 | six hex digits, with or without '#', give "r, g, b" of their byte values |
| UiUtils.ShortFormExpands | ui-utils.js:88-90 | a three-character code means the same as its doubled form, with or without '#' |
| UiUtils.WrongLengthRefused | ui-utils.js:79-85 | a code of any length but 3 or 6 gives null |
| UiUtils.SignedChannelAccepted | ui-utils.js:93-98 | a channel written as '-' and a hex digit is accepted and reads as a negative number |
| UiUtils.StrayCharacterRefused | ui-utils.js:93-98 | a channel starting with a character that is neither hex, sign nor space gives null |
| UiUtils.FormatGiftPrice | ui-utils.js:118-120 | the price text reads back as the number |
| UiUtils.FormatNumberShape | ui-utils.js:108-110 | for a non-negative number the groups between spaces join to its digits, the first has 1 to 3 digits and the others exactly 3 |
| UiUtils.FormatNumberUnspaced | ui-utils.js:108-110 | removing the spaces gives the plain decimal text |
| UiUtils.AnimationFrames | ui-utils.js:265-285 | equal values only write the end value; otherwise the frame count lies in [8, 20] and is 20 from a rise of 720 or a fall of more than 660 |
| UiUtils.FramesMonotone | ui-utils.js:285 | a larger rise never gives fewer frames |
| TaskCard.Underscored | TaskCard.js:88 | every '-' becomes '_' and every other character stays |
| TaskCard.RenderTaskCard | TaskCard.js:32-330 | the card is `CardOf` the task, and the timer registry changes only by arming the task's timer |
| TaskCard.CompletedShowsNothing | TaskCard.js:99-120 | a completed task shows no timer and no button, and arms nothing |
| TaskCard.TimerRule | TaskCard.js:99-103 | a subscription shows a timer iff it has one and is not completed, a regular task at 100 % shows none, and a shown timer is armed ahead or marked expired |
| TaskCard.LabelRule | TaskCard.js:125-145 | login claims, 100 % in progress claims, subscription subscribes iff not in progress, and a custom label needs `actionText` |
| TaskCard.TimerHidesButton | TaskCard.js:239-250 | a shown timer below 100 % hides the button; excluded task kinds below 100 % have none |
| TaskCard.HomeJumpUnreachable | TaskCard.js:150-160 | no shown or hidden button jumps to the home page |
| TaskCard.LoaderRule | TaskCard.js:168-171 | a subscription outside in_progress and check_manually shows no loader; otherwise a loader button is used |
| TaskCard.ProgressTextRule | TaskCard.js:303-314 | 100 shows "100%", a games task shows "cur/req", and plain tasks show "P%" |
| TaskCard.UrgentWindow | TaskCard.js:343-352 | a task is urgent iff its end lies more than 0 and at most 6 hours ahead |
| TaskCard.KeysUnderscored | TaskCard.js:88 | the key holds no '-', underscoring is idempotent, other characters are kept, and the title key is the prefix plus the underscored id |
| SubscriptionVerifier.ChannelOf | SubscriptionVerifier.js:28 | the channel defaults to "@GiftGo" |
| SubscriptionVerifier.SubscriptionRequest | SubscriptionVerifier.js:24-49 | the request goes to the (dev) check path with the channel, user, task and force flag, and carries initData iff it is truthy |
| SubscriptionVerifier.CheckSubscriptionOn | SubscriptionVerifier.js:13-114 | the method and its timer side effect equal `CheckSubscription` |
| SubscriptionVerifier.SubscriptionVerdict | SubscriptionVerifier.js:18-109 | the answer is yes iff the user is known, the reply is ok and a success, and the user already completed or is subscribed |
| SubscriptionVerifier.RefusalTouchesNoTimer | SubscriptionVerifier.js:65-109 | a refusal or an already completed task changes no timer |
| SubscriptionVerifier.CheckTwice | SubscriptionVerifier.js:74 | reading a running timer a second time at the same moment changes nothing and gives the same status |
| SubscriptionVerifier.RunningTimerKept | SubscriptionVerifier.js:74-94 | a running timer is never overwritten |
| SubscriptionVerifier.WaitArmsTimer | SubscriptionVerifier.js:74-94 | a subscription with a future `wait_until` and no running timer arms it |
| SubscriptionVerifier.IndexOfFrom | SubscriptionVerifier.js:152-154 | the search returns the first occurrence at or after the start, or none |
| SubscriptionVerifier.FallbackTarget | SubscriptionVerifier.js:146-174 | non-t.me links stay as they are; t.me links become a join or resolve deep link |
| SubscriptionVerifier.OpenChannel | SubscriptionVerifier.js:120-175 | the Web App opener is used when it exists and does not throw, `openTelegramLink` first; otherwise the page navigates to the fallback |
| SubscriptionVerifier.InviteLinkRewritten | SubscriptionVerifier.js:148-155 | `https://t.me/+H` becomes `telegram://join?invite=H` |
| SubscriptionVerifier.ChannelLinkRewritten | SubscriptionVerifier.js:157-159 | `https://t.me/name` becomes `telegram://resolve?domain=name` |
| ActivityVerifier.FindFrom | ActivityVerifier.js:94-96 | `find` returns the first matching task, or none |
| ActivityVerifier.RequiredOrZero | ActivityVerifier.js:29 | a missing or zero count becomes 0 |
| ActivityVerifier.ActivityDispatch | ActivityVerifier.js:16-36 | the check passes iff the user is known and the task is login, or play_games that the server confirms; share_results never passes |
| ActivityVerifier.GamesPlayedCharacterised | ActivityVerifier.js:65-115 | play_games passes iff the reply is ok and a success and the first task with the same type and count is completed or at 100 |
| ActivityVerifier.NoMatchRefused | ActivityVerifier.js:94-101 | no matching task means no |
| ActivityVerifier.FirstMatchDecides | ActivityVerifier.js:94-110 | only the first match counts, whatever later matches say |
| TelegramAuth.UrlPrefix | telegram-auth.js:11-13 | the prefix is "/dev" iff dev mode, else empty |
| TelegramAuth.InitDataLength | telegram-auth.js:123 | the length is positive iff initData is truthy |
| TelegramAuth.CreateTelegramHeaders | telegram-auth.js:242-252 | the content type is always sent, and the initData header exactly inside the Web App |
| TelegramAuth.GetTelegramUser | telegram-auth.js:258-264 | the user is returned iff inside the Web App, and then has a truthy id |
| TelegramAuth.EnforceAgrees | telegram-auth.js:133-209 | the check passes iff `isInTelegramWebApp` holds; otherwise the page goes to `/auth_error` under the prefix |
| TelegramAuth.EmptyInitDataUnreachable | telegram-auth.js:175-179 | the empty-initData classification never occurs, because `isRealTelegram` (line 129) already needs initData |
| TelegramAuth.RefusalLevels | telegram-auth.js:165-190 | browser refusals are warnings and Telegram refusals errors |
| TelegramAuth.RefusalCauses | telegram-auth.js:165-184 | a plain browser, a browser with the script, and a real Telegram without a user are each classified by exactly their cause |
| TelegramAuth.UnknownIssueExplained | telegram-auth.js:185-190 | the unknown issue is a real Telegram with a user whose initData is under 50 characters with no version or the mock "7.0" |
| TelegramAuth.AvailableWhenInside | telegram-auth.js:57-99 | being inside the Web App implies it is available, but not the converse |
| TelegramAuth.VersionGate | telegram-auth.js:84-90 | with `ready`, initData and a user, the page counts as inside iff initData has 50 characters or the version is not the mock |

## Left out

- All network traffic: the server replies to `fetch` (game results, tasks, subscription checks, user data, gifts, history, save and sell) are inputs, a request that throws is `None`, and the auth log sender `sendAuthLog` is not modelled.
- DOM markup, styling, haptics and sound: modal.js, RewardDisplay.js and profile.js, `createGiftElement`, the markup of `createLotteryElements`, `showBalanceUpdateAnimation`, `animateGiftToProfile`, `updateLevelInfo`, `updateProgressBar`, `applyTelegramColorScheme`, `initTgsSupport`, `setupScrollbarVisibility`, `triggerHapticFeedback`. Only the state these read or write is modelled.
- InventoryVerifier.js: a network call behind a presence check of three fields.
- win-gift-modal.js is not part of this model; the win modal is a single open/closed flag.
- `handleBalanceUpdated` and the balance display refresh, which only redraw the page.
- Floating point: reel offsets and easing, `chance.toFixed(2)` rounding, and the `X.Y` branch of the version bump (it returns `None` here). Chances are reals and progress is a real only in `Experience`.
- GameLogic.Select: a chance that is a string, a boolean or an object adds NaN to the running sum; JavaScript would concatenate a string or add a boolean as 0 or 1, which is not modelled. Such a chance still throws where it is printed.
- App.FinishSpinning: draws used by a repair that throws are not carried forward.
- Animations.Animate: the two or three `Math.random()` calls that pick the reel's stopping offset are not modelled and do not advance `draws`, since the offset is floating-point layout.
- Animations.Positioned: the `Math.random()` call for the offset after a skip is not modelled either and does not advance `draws`.
- App.TakeDemo: when `generateDemoResult` throws after its first draw, `draws` stays at its old value, so the later stream positions are shifted compared with the page.
- I18n.Lower: lowercases ASCII letters only, because JavaScript's full Unicode case mapping is out of scope.
- I18n.Translate: JSON `null` and arrays in the translation file are treated as opaque truthy values, and inherited object property names are not looked up.
- I18n.CacheAge: timestamps are integers in ms; `Date` parsing is not modelled.
- TaskCard.IsUrgent: `endTime` is taken as a number of ms, not a date string.
- SubscriptionVerifier.CheckSubscription: `wait_until` is taken as a number of ms.
- A missing `window.Telegram` in the verifiers throws before their `try`; that path is not modelled.
- SubscriptionVerifier.OpenChannel: assigning `location.href` is taken never to throw.
- `initTelegramAuth` only installs event listeners and is not modelled.
- The `buyStars` invoice and payment flow (Telegram platform I/O); only its amount guard and the auto-start rule are modelled.
- The `has-timer` CSS class on task cards.
- KeyList.Decode: accepts only a JSON array of strings. A stored array holding other JSON values counts as corrupt, where the code would use their string forms as keys.
- Fairness of the weighted draw is not stated, since draws are arbitrary inputs.

## Findings

| source | as written | input that shows it | evidently intended | confidence | as-written member | corrected member |
|---|---|---|---|---|---|---|
| app.js:667-670, 790-795 | when `getGameResult` returns null (cooldown, error, refused reply), `finishSpinning(false)` refunds the bet cost although `prepareSpinning` never charged it | not demo mode, enough balance, the server replies with a cooldown: the balance grows by the bet cost | refund only what was charged, so the balance is unchanged when no result arrives | not executed | App.RefundWithoutCharge | App.SpinLotteryIntended, App.IntendedSpinCharge |
| app.js:799 | `finishSpinning(true)` reads `animationState`, which app.js never imports (it is private to animations.js:9), so it throws after `isSpinning = false` and before `lastGameResult = null`; in the timer callback `spinTimer = null` at animations.js:210 is skipped too | any spin that completes, by timer or by skip | completion clears the last result and the timer handle | not executed | App.CompletionLeavesResult | App.FireSpinTimerIntended, App.IntendedCompletionClears |
| animations.js:71-78 | `createLotteryElements` skips a sequence id whose gift is missing, so the items after it move one place left and the item at `floor(len/2)` is no longer the winner | sequence `["x", "w", "y"]` with gifts only for `w` and `y`: the item at the centre index is `y`, and the highlight marks it | keep one item per sequence id (a placeholder for a missing gift), so the centre stays the winner | not executed | Animations.MissingGiftShiftsReel | Animations.PlaceholderElementsUpTo, Animations.PlaceholderReelCentred |
