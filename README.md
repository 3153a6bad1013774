# Force Forecast in Dafny

Force Forecast is a Star Wars themed daily planner that runs in the browser.
Generated content turns a prompt into a daily plan: a schedule, a list of
goals and a journal prompt. The plan can be saved to the browser's local
store and exported as a text brief. A calendar shows the plans saved when it
mounted and the calendar events, and it can turn a plan's schedule into events. A side panel
holds a focus timer with a music list. A small turn-based lightsaber duel is
hidden in the app, and so is a key sequence that switches on "Yoda mode".

This project models the logic of those parts in Dafny and proves properties
of the model.

| module | file | models |
|---|---|---|
| `Types` | `types.dfy` | the records of `src/types/index.ts` |
| `Text` | `text.dfy` | the string operations the source uses: number formatting and parsing, `padStart`, `split`/`join`, `reverse`, `replace`, `trim` |
| `Collections` | `collections.dfy` | `filter`, `findIndex`, the overwrite-or-append save rule, removal by id, `slice(-n)` |
| `Gregorian` | `gregorian.dfy` | the calendar arithmetic behind `Date`: month lengths, weekdays, the en-US `toLocaleDateString` |
| `Storage` | `storage.dfy` | `src/utils/storage.ts`: the local store as a class over a key-value map, and the text export |
| `Battle` | `battle.dfy` | `src/components/StarWarsGame.tsx`: the duel's state updates as functions, the component as the class `BattleSimulator` |
| `Pomodoro` | `pomodoro.dfy` | `src/components/PomodoroSidebar.tsx`: the timer updaters as functions, the panel as the class `PomodoroSidebar` |
| `Calendar` | `calendar.dfy` | `src/components/Calendar.tsx`: the month grid, the per-day lookups, generation of events from a plan, the class `CalendarPanel` |
| `App` | `app.dfy` | `src/App.tsx`: plan creation, saving, export naming, Yoda-speak and its key buffer, the class `ForceForecastApp` |

The React components become classes. Their state hooks become fields, and
their handlers become methods with `modifies` clauses. A functional updater
passed to a state setter becomes a pure function. The method that applies
it is proved to produce exactly that function's result, and the function's
properties are proved as lemmas.

Some inputs come from outside the program. Each of these is a parameter of
the method that uses it:

- every `Math.random()` draw, as a "roll" limited to the range the source's
  arithmetic can produce;
- `Date.now()` and the ISO time stamps;
- today's date;
- the reply of the content generator.

A `setTimeout` or `setInterval` callback is a separate method that runs
when the caller decides.

## Model

| member | source | states |
|---|---|---|
| `Types.PlanId` | src/types/index.ts:2 | the id a plan is saved under; `Collections.UpsertKeepsUniqueIds` and `Storage.Store.SavePlan` use it as the upsert key |
| `Storage.PlansIn` | src/utils/storage.ts:19-22 | with no plans key in the store, the stored plan list is empty |
| `Storage.EventsIn` | src/utils/storage.ts:74-77 | with no calendar key in the store, the stored event list is empty |
| `Storage.KeysAreIndependent` | src/utils/storage.ts:3-4 | writing the plans key reads back as written and leaves the events alone, and the other way round |
| `Storage.Store.GetPlans` | src/utils/storage.ts:19-22 | `getPlans`: the plans under the plans key, none when the key is missing, as `Storage.PlansIn` states |
| `Storage.Store.GetCalendarEvents` | src/utils/storage.ts:74-77 | `getCalendarEvents`: the events under the events key, none when the key is missing, as `Storage.EventsIn` states |
| `Storage.Store.GetEventsForDate` | src/utils/storage.ts:84-88 | `getEventsForDate`: the stored events of one day in stored order; `Storage.EventsOnDay` and `Storage.EventsOnDayKeepsOrder` state which and in what order |
| `Storage.EventsOnDay` | src/utils/storage.ts:84-88 | the day's events are exactly the stored events dated that day |
| `Storage.EventsOnDayKeepsOrder` | src/utils/storage.ts:84-88 | the day lookup distributes over concatenation, so the stored order is kept |
| `Storage.Store.constructor` | src/utils/storage.ts:19-22 | the store starts with the given contents |
| `Storage.Store.SavePlan` | src/utils/storage.ts:6-17 | the stored plans become the upsert of the plan: the first plan with its id is overwritten, or the plan is appended; the events are unchanged |
| `Storage.Store.DeletePlan` | src/utils/storage.ts:24-27 | the stored plans lose every plan with that id and keep the rest; the events are unchanged |
| `Storage.Store.SaveCalendarEvent` | src/utils/storage.ts:61-72 | the same overwrite-or-append rule applied to the events; the plans are unchanged |
| `Storage.Store.DeleteCalendarEvent` | src/utils/storage.ts:79-82 | the stored events lose every event with that id; the plans are unchanged |
| `Storage.ScheduleLines` | src/utils/storage.ts:41 | one line per schedule item, in order, each reading "time - task" |
| `Storage.GoalLines` | src/utils/storage.ts:44 | the goals numbered from 1; `Storage.NumberedFrom` states the number and the goal of each line |
| `Storage.NumberedFrom` | src/utils/storage.ts:44 | one line per goal, the i-th numbered first + i |
| `Storage.JournalResponse` | src/utils/storage.ts:48 | an empty journal entry shows "No entry recorded"; any other entry is shown as written; the result is never empty |
| `Storage.ReportSections` | src/utils/storage.ts:37-53 | the template's sections between its header and closing lines, in source order; `Storage.ScheduleSectionReadsBack` reads the schedule section back |
| `Storage.ReportBody` | src/utils/storage.ts:36-54 | the template without its framing line breaks; `Storage.ExportFraming` shows it is the exported text |
| `Storage.ExportPlanAsText` | src/utils/storage.ts:34-58 | `exportPlanAsText`: the filled template, trimmed; `Storage.ExportFraming` states that the trim removes only the framing line breaks |
| `Storage.ExportFraming` | src/utils/storage.ts:34-58 | trimming removes only the template's two framing line breaks, so the brief opens with the header line and closes with the footer line |
| `Storage.ScheduleSectionReadsBack` | src/utils/storage.ts:41 | when no time or task holds a line break, splitting the schedule section at line breaks gives back the schedule lines |
| `Collections.HasId` | src/components/Calendar.tsx:121 | `some(x => x.id === id)`: some record carries the id; `Collections.FindIndex` returns -1 exactly when it does not |
| `Collections.UniqueIds` | src/utils/storage.ts:6-17 | no two records share an id, the invariant `Collections.UpsertKeepsUniqueIds` and `Collections.FilterKeepsUniqueIds` keep |
| `Collections.Filter` | src/utils/storage.ts:25 | the result keeps exactly the elements that pass the test and is no longer than the input |
| `Collections.FilterAppend` | src/utils/storage.ts:25 | filtering distributes over concatenation, so the relative order is kept |
| `Collections.FilterNone` | src/components/Calendar.tsx:121-122 | a filter that no element passes gives the empty list |
| `Collections.FilterAll` | src/components/Calendar.tsx:121-122 | a filter that every element passes gives the input back |
| `Collections.FilterKeepsUniqueIds` | src/utils/storage.ts:80 | filtering a list with unique ids leaves the ids unique |
| `Collections.FindIndex` | src/utils/storage.ts:8 | `findIndex`: the first position holding the id, or -1 exactly when no element has it |
| `Collections.Upsert` | src/utils/storage.ts:6-17 | `savePlan`/`saveCalendarEvent` on the array: overwrite the first record with the id, else append; its properties are the `Upsert…` lemmas |
| `Collections.UpsertReplacesFirst` | src/utils/storage.ts:10-11 | when the id is present, only its first occurrence is overwritten and the length is kept |
| `Collections.UpsertAppendsNew` | src/utils/storage.ts:12-13 | when the id is absent, the record is appended |
| `Collections.UpsertIdempotent` | src/utils/storage.ts:6-17 | saving the same record twice is the same as saving it once |
| `Collections.UpsertKeepsUniqueIds` | src/utils/storage.ts:6-17 | a save keeps the ids unique, and the saved id is present afterwards |
| `Collections.UpsertContains` | src/utils/storage.ts:6-17 | after a save the saved record is in the collection |
| `Collections.UpsertFoundFirst` | src/utils/storage.ts:6-17 | after a save, a lookup by a field matched by the saved record and by no record with another key finds the saved record |
| `Collections.UpsertAll` | src/components/Calendar.tsx:108-122 | one save per generated event, in order; `Collections.UpsertAllFresh` and `Collections.UpsertAllSnoc` state its effect |
| `Collections.UpsertAllFresh` | src/components/Calendar.tsx:120-125 | saving records with fresh, distinct ids one after another appends them in order |
| `Collections.FilterStep` | src/components/Calendar.tsx:108 | filtering one element more adds that element exactly when it passes |
| `Collections.UpsertAllSnoc` | src/components/Calendar.tsx:108-126 | saving one more record after a run of saves is a single upsert on the result |
| `Collections.RemoveId` | src/utils/storage.ts:24-27 | `deletePlan`/`deleteCalendarEvent` on the array: `filter(x => x.id !== id)`; `Collections.RemoveIdSpec`, `…KeepsOrder` and `…AbsentId` state it |
| `Collections.RemoveIdSpec` | src/utils/storage.ts:24-27 | after removal the id is absent, every element with another id stays, and nothing new appears |
| `Collections.RemoveIdKeepsOrder` | src/utils/storage.ts:25 | removal distributes over concatenation, so the order of the rest is kept |
| `Collections.RemoveAbsentId` | src/utils/storage.ts:80 | removing an id that is not there changes nothing |
| `Collections.LastN` | src/components/StarWarsGame.tsx:113 | `slice(-n)`: the last n elements, or all of them when there are fewer |
| `Collections.LastNOfLastN` | src/components/StarWarsGame.tsx:113 | keeping the last n of an already trimmed window and new keys is the same as keeping the last n of all keys |
| `Collections.LastNOfSuffix` | src/components/StarWarsGame.tsx:113 | the last \|b\| elements of a + b are b |
| `Text.DigitChar` | src/components/PomodoroSidebar.tsx:171 | a digit value becomes the character of that digit |
| `Text.DigitValue` | src/components/PomodoroSidebar.tsx:393 | a digit character has a value below ten |
| `Text.NatToString` | src/App.tsx:49 | `toString()` of a whole number: digits only, no leading zero, one character exactly below ten |
| `Text.ParseNat` | src/components/PomodoroSidebar.tsx:393 | `parseInt` of a digit string; `Text.ParseNatToString` reads every printed number back |
| `Text.ParseNatToString` | src/App.tsx:49 | reading the decimal text of a number gives the number back |
| `Text.NatToStringInjective` | src/components/Calendar.tsx:110 | different numbers have different decimal texts |
| `Text.IntToStringInjective` | src/App.tsx:50 | different integers, negative ones included, have different decimal texts |
| `Text.IntToString` | src/components/StarWarsGame.tsx:180 | the decimal text of an integer: a minus sign and the magnitude when negative |
| `Text.PadStart` | src/components/PomodoroSidebar.tsx:171 | `padStart`: the text right-aligned in the width, the gap filled with the fill character |
| `Text.TwoDigits` | src/components/PomodoroSidebar.tsx:171 | a number below 100 padded to two digits is two digits that read back as the number |
| `Text.Split` | src/App.tsx:223 | `split`: at least one part, and no part holds the separator |
| `Text.Join` | src/App.tsx:223 | `join` with a one-character separator; `Text.JoinSplit`, `Text.SplitJoin` and `Text.JoinInjective` tie it to `split` |
| `Text.JoinSplit` | src/App.tsx:223 | joining the parts of a split with the same separator gives the text back |
| `Text.SplitWithoutSeparator` | src/App.tsx:223 | a text without the separator splits into itself alone |
| `Text.SplitAtFirstSeparator` | src/App.tsx:223 | splitting at the first separator gives the first word and then the split of the rest |
| `Text.SplitJoin` | src/App.tsx:223 | splitting the join of separator-free parts gives the parts back |
| `Text.JoinInjective` | src/App.tsx:210 | two lists of separator-free parts join to the same text exactly when they are equal |
| `Text.SplitJoinReversed` | src/App.tsx:223 | splitting the join of the reversed words gives the words in reverse order |
| `Text.Reverse` | src/App.tsx:223 | `reverse`: element i of the result is element n - 1 - i of the input |
| `Text.ReverseReverse` | src/App.tsx:223 | reversing twice gives the list back |
| `Text.ReplaceAll` | src/App.tsx:103 | `replace(/\//g, '-')` in general form: every `from` becomes `to`, every other character stays, and the length is kept |
| `Text.IsWhitespace` | src/components/Calendar.tsx:82 | the characters `trim()` removes: white space and line terminators |
| `Text.TrimStart` | src/components/Calendar.tsx:82 | leading whitespace is removed, and the rest starts with a non-whitespace character |
| `Text.TrimEnd` | src/components/Calendar.tsx:82 | trailing whitespace is removed, and the rest ends with a non-whitespace character |
| `Text.Trim` | src/components/Calendar.tsx:82 | `trim()`: `Text.TrimStart` and `Text.TrimEnd` state what each end loses, `Text.TrimEmptyIffBlank` when nothing is left |
| `Text.TrimEmptyIffBlank` | src/components/Calendar.tsx:82 | `trim()` gives the empty text exactly when the text is all whitespace |
| `Text.TrimNewlineFramed` | src/utils/storage.ts:57 | trimming a text framed by line breaks, whose own ends are not whitespace, gives that text |
| `Gregorian.IsLeapYear` | src/components/Calendar.tsx:36-37 | the Gregorian leap-year rule behind `new Date(year, month + 1, 0)`; `Gregorian.DaysInMonth` gives February 29 days exactly in such a year |
| `Gregorian.DaysInMonth` | src/components/Calendar.tsx:36-37 | a month has 28 to 31 days, and 29 exactly for February of a leap year |
| `Gregorian.Weekday` | src/components/Calendar.tsx:38 | `getDay()`: a weekday from 0 (Sunday) to 6 |
| `Gregorian.NextDayWeekday` | src/components/Calendar.tsx:38 | the next day of a month falls on the next weekday, Saturday being followed by Sunday |
| `Gregorian.WeekdayAnchors` | src/components/Calendar.tsx:38 | the weekdays agree with the calendar: 1 January 1970 a Thursday, 29 February 2000 a Tuesday, 1 January 2024 a Monday, 14 October 2026 a Wednesday |
| `Gregorian.DaysBeforeMonth` | src/components/Calendar.tsx:36 | days of the year before a month; `Gregorian.MonthsFillYear` shows the twelve months fill the year |
| `Gregorian.DaysBeforeYear` | src/components/Calendar.tsx:35 | days from 1 January of year 1 to a new year; `Gregorian.YearStep` relates consecutive years |
| `Gregorian.DayNumber` | src/components/Calendar.tsx:35-38 | the day count behind `Date`; `Gregorian.NextDayWeekday` and `Gregorian.NextMonthWeekday` step it by days and months |
| `Gregorian.MonthsFillYear` | src/components/Calendar.tsx:36 | the twelve months together take up the whole year |
| `Gregorian.YearStep` | src/components/Calendar.tsx:36 | the day count at the start of the next year is this year's start plus its length |
| `Gregorian.NextMonthWeekday` | src/components/Calendar.tsx:35-38 | the next month, also across the new year, starts on the weekday after this month's last day |
| `Gregorian.LocaleDateString` | src/App.tsx:50 | the en-US date text "M/D/YYYY" holds a '/' |
| `Gregorian.DateFields` | src/components/Calendar.tsx:60-63 | the date text is its month, day and year fields joined by '/', none of which holds a '/' |
| `Gregorian.LocaleDateStringInjective` | src/components/Calendar.tsx:60-63 | two days have the same date text exactly when they are the same day, so `getPlanForDate`'s match on the text is a match on the day |
| `Battle.Bounded` | src/components/StarWarsGame.tsx:141-303 | what every reachable game state keeps: health and Force in range, an opponent from the roster, and active exactly while playing; kept by `Battle.PlayKeepsBounds` |
| `Battle.StartMessage` | src/components/StarWarsGame.tsx:155 | the opening log line of `startGame`, named in `Battle.BattleSimulator.StartGame` |
| `Battle.StrikeMessage` | src/components/StarWarsGame.tsx:180 | the attack's log line, named in `Battle.ApplyActionEffect`'s switch |
| `Battle.LightningMessage` | src/components/StarWarsGame.tsx:190 | the Force lightning log line of the switch |
| `Battle.DefeatedMessage` | src/components/StarWarsGame.tsx:223 | the log line of a defeated opponent |
| `Battle.ApproachMessage` | src/components/StarWarsGame.tsx:246 | the log line of the next opponent, with its quote |
| `Battle.UnlockMessage` | src/components/StarWarsGame.tsx:134 | the announcement `Battle.Unlock` logs the first time an achievement is unlocked |
| `Battle.EnemyAttackMessage` | src/components/StarWarsGame.tsx:275 | the opponent's attack log line |
| `Battle.EnemyForceMessage` | src/components/StarWarsGame.tsx:283 | the opponent's Force log line |
| `Battle.EnemyForceFailMessage` | src/components/StarWarsGame.tsx:285 | the failed Force log line, stated by `Battle.EnemyForceFails` |
| `Battle.EnemyDefendMessage` | src/components/StarWarsGame.tsx:291 | the opponent's defence log line |
| `Battle.AddToLog` | src/components/StarWarsGame.tsx:127-129 | the log keeps at most five messages: the last four before, in order, then the new message |
| `Battle.Unlock` | src/components/StarWarsGame.tsx:131-139 | the achievement is held afterwards and added only once; the log announces it only the first time; nothing else changes |
| `Battle.Started` | src/components/StarWarsGame.tsx:141-156 | a new battle is within bounds and active against the first opponent, with score, combo and last action cleared and the achievements kept |
| `Battle.ToMenu` | src/components/StarWarsGame.tsx:158-165 | going back to the menu ends the battle and keeps the rest of the state and its bounds |
| `Battle.HasForceSensitive` | src/components/StarWarsGame.tsx:194 | some achievement mentions "Force Sensitive" |
| `Battle.ForceSensitiveDue` | src/components/StarWarsGame.tsx:194-196 | the Force-power achievement check as written: none mentions "Force Sensitive" and the score plus one reaches ten; used by `Battle.ActionStepEffect` |
| `Battle.NextCombo` | src/components/StarWarsGame.tsx:181 | the combo rule: defence resets it, the same attacking action again adds one, else 1; `Battle.ActionStepEffect` and `Battle.MovedState` state the resulting combo |
| `Battle.UnlockIf` | src/components/StarWarsGame.tsx:196-198 | a guarded unlock is an unlock when the guard holds and changes nothing otherwise |
| `Battle.UnlockIfEffect` | src/components/StarWarsGame.tsx:131-139 | a guarded unlock only extends the achievement list, keeps every held achievement and changes nothing else |
| `Battle.AwardDefeat` | src/components/StarWarsGame.tsx:222-238 | a defeated opponent adds its difficulty times 100 to the score; only the score and the achievements change |
| `Battle.DefeatAchievements` | src/components/StarWarsGame.tsx:225-238 | the three achievement checks of a defeat in source order; stated by `Battle.DefeatAchievementsRecord` and `Battle.AwardDefeatEffect` |
| `Battle.AwardDefeatEffect` | src/components/StarWarsGame.tsx:225-238 | after a defeat, "First Blood" is held for the first opponent, "No Mercy" at full health, "Sith Lord" for Darth Vader, and no achievement is lost |
| `Battle.Advance` | src/components/StarWarsGame.tsx:240-252 | before the last opponent, the next one enters at full health and Force; after the last, the battle is won with "The Chosen One" and the log ends with the victory message |
| `Battle.PlayerTurn` | src/components/StarWarsGame.tsx:167-261 | `performAction` with each unlock applied where it is called (the corrected turn); its properties are `Battle.InactiveTurnChangesNothing` through `Battle.PlayerTurnKeepsBounds`, and `Battle.IntendedIsReplaceThenUnlock` relates it to the as-written turn |
| `Battle.AcceptedTurn` | src/components/StarWarsGame.tsx:170-258 | an accepted action: the defeat is resolved at once, else the reply is scheduled; stated by `Battle.OpponentSurvives` and `Battle.OpponentDefeated` |
| `Battle.ActionStep` | src/components/StarWarsGame.tsx:176-218 | the switch, `lastAction` and the combo achievement; stated by `Battle.ActionStepEffect` and `Battle.ActionStepRecord` |
| `Battle.ApplyAction` | src/components/StarWarsGame.tsx:176-211 | the switch over the action; stated by `Battle.ApplyActionEffect` |
| `Battle.ForceLightning` | src/components/StarWarsGame.tsx:184-199 | the Force branch: damage, cost and the Force-power check; stated in `Battle.ApplyActionEffect` |
| `Battle.Damage` | src/components/StarWarsGame.tsx:178-188 | the damage an action deals: the roll, none for a defence; used by `Battle.ActionStepEffect` |
| `Battle.InactiveTurnChangesNothing` | src/components/StarWarsGame.tsx:168 | an action outside an active battle changes nothing and schedules no reply |
| `Battle.ForceRefused` | src/components/StarWarsGame.tsx:184-203 | a Force action with less than 20 energy only logs the refusal and schedules no reply |
| `Battle.ActionStepEffect` | src/components/StarWarsGame.tsx:176-218 | an accepted action deals its damage (floored at zero), pays or restores Force, updates the combo and the last action, unlocks "Combo Master" at a combo of five, and changes nothing else |
| `Battle.ApplyActionEffect` | src/components/StarWarsGame.tsx:176-211 | each action's effect on health, Force and combo, with only achievements added besides |
| `Battle.OpponentSurvives` | src/components/StarWarsGame.tsx:253-258 | when the damage does not finish the opponent, its health drops by the damage, the score stays and the reply is scheduled |
| `Battle.ResolveDefeat` | src/components/StarWarsGame.tsx:220-252 | the defeat branch: scoring, awards, then the next opponent or victory; stated by `Battle.ResolveDefeatEffect` and `Battle.ResolveDefeatRecord` |
| `Battle.ResolveDefeatEffect` | src/components/StarWarsGame.tsx:220-252 | the defeat branch scores the opponent, awards its achievements, keeps the player's health, Force and combo, and brings in the next opponent or wins the campaign |
| `Battle.OpponentDefeated` | src/components/StarWarsGame.tsx:220-252 | when the damage finishes the opponent, no reply is scheduled, the score rises by difficulty times 100, the achievements are awarded, and the next opponent enters or the campaign is won |
| `Battle.PlayerTurnKeepsBounds` | src/components/StarWarsGame.tsx:167-261 | any action keeps health and Force in range and the opponent in the roster, keeps every achievement, keeps the log at five messages, and schedules a reply only in an active battle |
| `Battle.DefeatKeepsBounds` | src/components/StarWarsGame.tsx:220-252 | the defeat branch keeps the state within bounds and keeps every earlier achievement |
| `Battle.EnemyMove` | src/components/StarWarsGame.tsx:263-303 | `enemyTurn` on the captured state: the move, then the defeat check; stated by `Battle.EnemyMoveEffect`, `Battle.EnemyForceFails` and `Battle.EnemyMoveKeepsBounds` |
| `Battle.EnemyAction` | src/components/StarWarsGame.tsx:264-293 | the opponent's switch over attack, Force and defence; stated through `Battle.EnemyMoveEffect` |
| `Battle.EnemyMoveEffect` | src/components/StarWarsGame.tsx:263-303 | the reply changes only the player's health, the opponent's Force and the phase; the player is defeated exactly when health reaches zero; an attack deals its damage and leaves the opponent's Force alone; Force power with at least 20 energy deals its damage and costs 20, and below 20 changes nothing; a defence restores at most 15 Force up to the opponent's maximum |
| `Battle.EnemyForceFails` | src/components/StarWarsGame.tsx:278-287 | an opponent with less than 20 Force that tries Force power only logs the failure; nothing else changes |
| `Battle.EnemyMoveKeepsBounds` | src/components/StarWarsGame.tsx:263-303 | the reply keeps the state within bounds, keeps the achievements and keeps the log short |
| `Battle.Play` | src/components/StarWarsGame.tsx:167-303 | rounds played in turn; `Battle.PlayKeepsBounds` and `Battle.FinishedBattleIsFinal` state it for any number of rounds |
| `Battle.PlayKeepsBounds` | src/components/StarWarsGame.tsx:167-303 | any run of rounds keeps the state within bounds, never loses an achievement and keeps the log at five messages |
| `Battle.PlayRound` | src/components/StarWarsGame.tsx:167-303 | one action and the reply it schedules keep the state within bounds, keep every achievement and keep the log at five messages |
| `Battle.FinishedBattleIsFinal` | src/components/StarWarsGame.tsx:168 | once a battle is over, further rounds change nothing |
| `Battle.OpeningDuel` | src/components/StarWarsGame.tsx:141-303 | two strikes of 40 to 44 points against the Padawan Trainee, who defends in between, win the first duel at full health: 100 points, "First Blood", "No Mercy", a combo of two, and the Jedi Knight at full health |
| `Battle.FirstExchange` | src/components/StarWarsGame.tsx:167-303 | the first strike of 40 to 44 points leaves the trainee standing at 80 minus the strike; its defence leaves the player at full health with a combo of one |
| `Battle.SecondStrike` | src/components/StarWarsGame.tsx:167-261 | a second strike after an attack finishes the trainee at full health: 100 points, "First Blood", "No Mercy", a combo of two, and the Jedi Knight enters |
| `Battle.AddName` | src/components/StarWarsGame.tsx:133-137 | the updater's list holds the name afterwards, extends the old list, and grows by the name exactly when it was absent |
| `Battle.AddNames` | src/components/StarWarsGame.tsx:131-139 | several unlock updaters' lists in turn; `Battle.AddNamesAppend` composes them |
| `Battle.ApplyUpdate` | src/components/StarWarsGame.tsx:131-139 | a queued unlock updater acts as `unlockAchievement` on the state React holds; a plain `setGameState(value)` gives the value |
| `Battle.ApplyQueue` | src/components/StarWarsGame.tsx:131-260 | the `gameState` queue applied at render, in issue order; `Battle.ApplyQueueAppend` and `Battle.QueueEndingInReplace` state it |
| `Battle.Unlockings` | src/components/StarWarsGame.tsx:131-139 | one unlock updater per `unlockAchievement` call, in call order; `Battle.UnlockingsAddNames` states their effect |
| `Battle.ApplyQueueAppend` | src/components/StarWarsGame.tsx:131-260 | applying a queue in two parts is applying the first part, then the second |
| `Battle.QueueEndingInReplace` | src/components/StarWarsGame.tsx:260 | whatever is queued before it, a final `setGameState(newState)` decides the state |
| `Battle.UnlockingsAddNames` | src/components/StarWarsGame.tsx:131-139 | a run of unlock updaters adds their names in order and changes nothing else |
| `Battle.AddNamesAppend` | src/components/StarWarsGame.tsx:131-139 | adding names in two parts is adding the first part, then the second |
| `Battle.MovedState` | src/components/StarWarsGame.tsx:171-213 | the copy after the switch keeps the achievements, the player's health and the opponent, records the action, and sets the combo by the combo rule |
| `Battle.Advanced` | src/components/StarWarsGame.tsx:241-252 | bringing in the next opponent or declaring victory keeps the achievements and the score |
| `Battle.Scored` | src/components/StarWarsGame.tsx:222 | `newState.score += enemy.difficulty * 100` on the copy; `Battle.AfterDefeat` states the score |
| `Battle.AfterDefeat` | src/components/StarWarsGame.tsx:221-252 | the defeat branch on the copy adds difficulty times 100 to the score and keeps the achievements |
| `Battle.AfterDefeatKeepsList` | src/components/StarWarsGame.tsx:221-252 | the defeat branch on the copy never reads the achievement list |
| `Battle.NewStateOf` | src/components/StarWarsGame.tsx:170-252 | `newState` as handed to `setGameState` holds exactly the achievements the action started with |
| `Battle.ActionCalls` | src/components/StarWarsGame.tsx:194-218 | the names the action half passes to `unlockAchievement`, in call order; `Battle.ActionStepRecord` shows the intended turn adds them |
| `Battle.AwardCalls` | src/components/StarWarsGame.tsx:225-238 | the names the scoring half passes, in call order; `Battle.AwardDefeatRecord` shows they are added |
| `Battle.VictoryCalls` | src/components/StarWarsGame.tsx:247-250 | "The Chosen One" after the last opponent; `Battle.AdvanceRecord` shows it is added |
| `Battle.DefeatCalls` | src/components/StarWarsGame.tsx:225-250 | the names the defeat branch passes, in call order; `Battle.ResolveDefeatRecord` shows they are added |
| `Battle.UnlockCalls` | src/components/StarWarsGame.tsx:194-250 | every `unlockAchievement` call of an accepted action, in call order; `Battle.IntendedTurnRecord` shows the intended turn adds exactly these |
| `Battle.IssuedUpdates` | src/components/StarWarsGame.tsx:168-260 | the updates one press queues: the unlock updaters, then `setGameState(newState)`, none on an early return; `Battle.IntendedIsReplaceThenUnlock` states its shape |
| `Battle.PlayerTurnAsWritten` | src/components/StarWarsGame.tsx:131-260 | `performAction` as React runs it: the issued queue applied at render; `Battle.AsWrittenLosesUnlocks` and `Battle.FirstBloodIsLost` state what it loses |
| `Battle.AsWrittenLosesUnlocks` | src/components/StarWarsGame.tsx:131-260 | as React applies the issued queue, every press ends with the achievement list it started with: an accepted action ends at `newState`, an early return changes nothing |
| `Battle.UnlockIfRecord` | src/components/StarWarsGame.tsx:196-198 | a guarded unlock adds the name exactly when the guard holds and changes nothing else |
| `Battle.UnlockIfAfter` | src/components/StarWarsGame.tsx:131-139 | one more guarded unlock extends the list of names added so far |
| `Battle.ActionStepRecord` | src/components/StarWarsGame.tsx:176-218 | the action half of the intended turn is the copy after the switch with the action's unlocks added in call order |
| `Battle.DefeatAchievementsRecord` | src/components/StarWarsGame.tsx:225-238 | the three defeat checks add "First Blood", "No Mercy" and "Sith Lord" as called for, in that order, and change nothing else |
| `Battle.AdvanceRecord` | src/components/StarWarsGame.tsx:240-252 | the closing half of the defeat branch is the advanced copy, with "The Chosen One" added after the last opponent |
| `Battle.AwardDefeatRecord` | src/components/StarWarsGame.tsx:222-238 | the scoring half of the defeat branch is the scored copy with its unlocks added |
| `Battle.ResolveDefeatRecord` | src/components/StarWarsGame.tsx:220-252 | the defeat branch is the defeat on the copy with every unlock it calls for added in call order |
| `Battle.IntendedTurnRecord` | src/components/StarWarsGame.tsx:167-258 | the intended turn is `newState` with every unlock the action calls for added in call order |
| `Battle.SurvivingTurnRecord` | src/components/StarWarsGame.tsx:167-218 | when the opponent survives, the intended turn is the moved copy with the action's unlocks |
| `Battle.DefeatedTurnRecord` | src/components/StarWarsGame.tsx:167-252 | when the opponent falls, the intended turn is the defeated copy with every unlock called for |
| `Battle.IntendedIsReplaceThenUnlock` | src/components/StarWarsGame.tsx:131-260 | the source queues the unlock updaters before `setGameState(newState)`; the intended turn is that same queue with the replacement moved to the front |
| `Battle.FirstBloodIsLost` | src/components/StarWarsGame.tsx:226-260 | beating the first opponent leaves "First Blood" locked as written, and unlocks it in the intended turn |
| `Battle.KonamiWindow` | src/components/StarWarsGame.tsx:113 | the key window holds at most ten key codes and ends with the newest |
| `Battle.KonamiMatched` | src/components/StarWarsGame.tsx:116 | the joined window equals the joined code; `Battle.KonamiMatchIsExact` makes it an equality of key lists |
| `Battle.KonamiMatchIsExact` | src/components/StarWarsGame.tsx:116 | for comma-free key codes, the joined comparison holds exactly when the window is the code |
| `Battle.Feed` | src/components/StarWarsGame.tsx:113-114 | the key window after a run of keydowns; `Battle.FeedKeepsLastKeys` states it is the last ten keys |
| `Battle.FeedKeepsLastKeys` | src/components/StarWarsGame.tsx:113 | after any keydowns the window is the last ten key codes typed |
| `Battle.TypingTheCodeMatches` | src/components/StarWarsGame.tsx:107-116 | typing the code matches whatever came before |
| `Battle.BattleSimulator.constructor` | src/components/StarWarsGame.tsx:87-103 | the component mounts in the menu with full health and Force, no achievements, an empty log and an empty key window |
| `Battle.BattleSimulator.StartGame` | src/components/StarWarsGame.tsx:141-156 | the state becomes the started battle, and the log holds only the opening message |
| `Battle.BattleSimulator.ResetGame` | src/components/StarWarsGame.tsx:158-165 | back to the menu with an empty log |
| `Battle.BattleSimulator.PerformAction` | src/components/StarWarsGame.tsx:167-261 | the state and log become the player's turn; when a reply is scheduled, the state it will see is returned, active and within bounds |
| `Battle.BattleSimulator.Accept` | src/components/StarWarsGame.tsx:170-258 | an accepted action applies the move, the combo check and the defeat branch |
| `Battle.BattleSimulator.PlayerMove` | src/components/StarWarsGame.tsx:176-211 | the switch over the action, with its log messages |
| `Battle.BattleSimulator.UseForce` | src/components/StarWarsGame.tsx:185-199 | Force lightning with its cost and the check for the Force-power achievement |
| `Battle.BattleSimulator.ScoreDefeat` | src/components/StarWarsGame.tsx:222-238 | scores the defeated opponent and runs its achievement checks |
| `Battle.BattleSimulator.CheckDefeatAchievements` | src/components/StarWarsGame.tsx:225-238 | the three achievement checks of a defeat, in the source's order |
| `Battle.BattleSimulator.UnlockWhen` | src/components/StarWarsGame.tsx:196-198 | unlocks the achievement when the condition holds |
| `Battle.BattleSimulator.UnlockAchievement` | src/components/StarWarsGame.tsx:131-139 | adds the achievement once and announces it only the first time |
| `Battle.BattleSimulator.NextOpponent` | src/components/StarWarsGame.tsx:240-252 | brings in the next opponent or declares victory |
| `Battle.BattleSimulator.EnemyTurn` | src/components/StarWarsGame.tsx:255-303 | the delayed reply on the captured state: the opponent's move, then the check for the player's defeat; the state stays within bounds |
| `Battle.BattleSimulator.EnemyAct` | src/components/StarWarsGame.tsx:264-293 | the opponent's attack, Force power (refused below 20 energy) or defence, with its log message |
| `Battle.BattleSimulator.HandleKeyPress` | src/components/StarWarsGame.tsx:109-125 | a closed game ignores keys; an open one keeps the last ten codes, and on the code shows the easter egg, logs R2-D2 and then unlocks "These Aren't The Droids", whose updater runs after the log's |
| `Battle.BattleSimulator.RevealDroid` | src/components/StarWarsGame.tsx:116-120 | shows the easter egg, appends R2-D2's line to the log, then unlocks "These Aren't The Droids" with its announcement after that line |
| `Pomodoro.ModeMinutes` | src/components/PomodoroSidebar.tsx:158-166 | the length of the current mode's interval; `Pomodoro.ResetRule` refills the clock with it |
| `Pomodoro.Tick` | src/components/PomodoroSidebar.tsx:85-88 | the interval's updater; `Pomodoro.TickTakesOneSecond` states it |
| `Pomodoro.Ticks` | src/components/PomodoroSidebar.tsx:83-89 | several ticks; `Pomodoro.TicksCountDown` states them |
| `Pomodoro.Completed` | src/components/PomodoroSidebar.tsx:105-133 | `handleTimerComplete`'s updater; `Pomodoro.CompletionRule`, `Pomodoro.CompletedIsReset` and `Pomodoro.CycleFromInitial` state it |
| `Pomodoro.Completions` | src/components/PomodoroSidebar.tsx:105-133 | intervals completed in turn; `Pomodoro.CycleFromInitial` and `Pomodoro.FourthSessionEarnsLongBreak` state where they lead |
| `Pomodoro.Started` | src/components/PomodoroSidebar.tsx:147-152 | `startTimer`'s update, stated by `Pomodoro.PomodoroSidebar.StartTimer` |
| `Pomodoro.Paused` | src/components/PomodoroSidebar.tsx:154-156 | `pauseTimer`'s update, stated by `Pomodoro.PomodoroSidebar.PauseTimer` |
| `Pomodoro.Reset` | src/components/PomodoroSidebar.tsx:158-166 | `resetTimer`'s updater; `Pomodoro.ResetRule` states its fields and idempotence |
| `Pomodoro.SettingOrDefault` | src/components/PomodoroSidebar.tsx:393-415 | `parseInt(value) \|\| fallback`: an unparsable text or a zero gives the default; any other number is kept; the result is never zero when the default is not |
| `Pomodoro.TickTakesOneSecond` | src/components/PomodoroSidebar.tsx:85-88 | a tick takes one second off the clock and changes nothing else |
| `Pomodoro.TicksCountDown` | src/components/PomodoroSidebar.tsx:83-89 | n ticks take n seconds off the clock and change nothing else |
| `Pomodoro.RunToZeroThenComplete` | src/components/PomodoroSidebar.tsx:83-91 | a running timer ticked down reaches exactly zero, and completing it then gives what completing it at the start would |
| `Pomodoro.CompletionRule` | src/components/PomodoroSidebar.tsx:105-132 | completion stops the timer; a work session is counted and followed by a long break every fourth session and a short break otherwise; a break is followed by work; the durations stay |
| `Pomodoro.CompletedIsReset` | src/components/PomodoroSidebar.tsx:105-166 | a completed interval is already reset: it stands stopped at the full length of its new mode |
| `Pomodoro.ResetRule` | src/components/PomodoroSidebar.tsx:158-166 | reset stops the timer at the full length of the current mode, keeps the mode, session and durations, and resetting twice is resetting once |
| `Pomodoro.WithWorkTime` | src/components/PomodoroSidebar.tsx:393 | the work-length input's updater; `Pomodoro.SettingsKeepTheClock` states it |
| `Pomodoro.WithShortBreakTime` | src/components/PomodoroSidebar.tsx:404 | the short-break input's updater; `Pomodoro.SettingsKeepTheClock` states it |
| `Pomodoro.WithLongBreakTime` | src/components/PomodoroSidebar.tsx:415 | the long-break input's updater; `Pomodoro.SettingsKeepTheClock` states it |
| `Pomodoro.SettingsKeepTheClock` | src/components/PomodoroSidebar.tsx:393-415 | changing a duration leaves the running clock and the mode alone; unparsable input gives 25, 5 and 15 minutes |
| `Pomodoro.CycleFromInitial` | src/components/PomodoroSidebar.tsx:59-132 | from the initial timer, k work-and-break cycles return to a stopped 25-minute work session numbered k + 1, and the k-th break is long exactly when k is a multiple of four |
| `Pomodoro.FourthSessionEarnsLongBreak` | src/components/PomodoroSidebar.tsx:111-119 | the first three breaks are short and the fourth is the 15-minute long break |
| `Pomodoro.JsRemainder` | src/components/PomodoroSidebar.tsx:170 | JavaScript's truncating `%`: the remainder has the dividend's sign, is smaller than b in size, and the dividend minus it is a multiple of b; for a non-negative dividend it is the Euclidean remainder |
| `Pomodoro.FormatTime` | src/components/PomodoroSidebar.tsx:168-172 | `formatTime`; `Pomodoro.FormatTimeReadsBack`, `Pomodoro.FormatTimeParts` and `Pomodoro.FormatTimeShape` state its read-back and shape |
| `Pomodoro.PaddedReadsBack` | src/components/PomodoroSidebar.tsx:171 | a number padded to two digits is at least two digits that read back as the number |
| `Pomodoro.FormatTimeReadsBack` | src/components/PomodoroSidebar.tsx:168-172 | the shown time splits at its colon into minutes and two-digit seconds below 60, which together give back the seconds |
| `Pomodoro.ColonSplitsFields` | src/components/PomodoroSidebar.tsx:171 | two digit strings joined by a colon split back into the two |
| `Pomodoro.FormatTimeParts` | src/components/PomodoroSidebar.tsx:169-171 | a non-negative time shows padded whole minutes, a colon and padded remaining seconds |
| `Pomodoro.FormatTimeShape` | src/components/PomodoroSidebar.tsx:168-172 | below 100 minutes the shown time is five characters, "mm:ss" |
| `Pomodoro.FilterByCategory` | src/components/PomodoroSidebar.tsx:228-230 | `filteredTracks`; `Pomodoro.FilterByCategorySpec` and `Pomodoro.FilterByCategoryKeepsOrder` state it |
| `Pomodoro.PomodoroSidebar.FilteredTracks` | src/components/PomodoroSidebar.tsx:228-230 | the listed tracks of the selected category, stated by `Pomodoro.PomodoroSidebar.SelectCategory` |
| `Pomodoro.FilterByCategorySpec` | src/components/PomodoroSidebar.tsx:228-230 | "all" shows every track; any other category shows exactly the tracks of that category |
| `Pomodoro.FilterByCategoryKeepsOrder` | src/components/PomodoroSidebar.tsx:228-230 | the category filter keeps the order of the track list |
| `Pomodoro.NextIndex` | src/components/PomodoroSidebar.tsx:214 | the next index stays in the playlist and wraps from the last track to the first |
| `Pomodoro.PrevIndex` | src/components/PomodoroSidebar.tsx:222 | the previous index stays in the playlist |
| `Pomodoro.NextPrevInverse` | src/components/PomodoroSidebar.tsx:212-226 | the next and the previous track undo each other |
| `Pomodoro.PomodoroSidebar.constructor` | src/components/PomodoroSidebar.tsx:59-76 | the panel mounts with a stopped 25-minute work session 1, no track playing, the "all" category and an empty playlist |
| `Pomodoro.PomodoroSidebar.IntervalTick` | src/components/PomodoroSidebar.tsx:84-89 | a tick of a running timer takes one second off and changes nothing else |
| `Pomodoro.PomodoroSidebar.TimerEffect` | src/components/PomodoroSidebar.tsx:82-103 | the effect completes the interval when the time is up, and with any other time left, running or paused, changes nothing |
| `Pomodoro.PomodoroSidebar.HandleTimerComplete` | src/components/PomodoroSidebar.tsx:105-136 | the timer becomes the completed one; the music state is unchanged |
| `Pomodoro.PomodoroSidebar.StartTimer` | src/components/PomodoroSidebar.tsx:147-152 | starts the timer and changes nothing else |
| `Pomodoro.PomodoroSidebar.PauseTimer` | src/components/PomodoroSidebar.tsx:154-156 | stops the timer and changes nothing else |
| `Pomodoro.PomodoroSidebar.ResetTimer` | src/components/PomodoroSidebar.tsx:158-166 | resets the timer to its mode's full length and changes nothing else |
| `Pomodoro.PomodoroSidebar.SetWorkTime` | src/components/PomodoroSidebar.tsx:393 | sets the work length, 25 for unparsable input |
| `Pomodoro.PomodoroSidebar.SetShortBreakTime` | src/components/PomodoroSidebar.tsx:404 | sets the short break length, 5 for unparsable input |
| `Pomodoro.PomodoroSidebar.SetLongBreakTime` | src/components/PomodoroSidebar.tsx:415 | sets the long break length, 15 for unparsable input |
| `Pomodoro.PomodoroSidebar.PlayTrack` | src/components/PomodoroSidebar.tsx:191-200 | the track becomes current and plays |
| `Pomodoro.PomodoroSidebar.TogglePlayPause` | src/components/PomodoroSidebar.tsx:202-210 | flips between playing and paused |
| `Pomodoro.PomodoroSidebar.NextTrack` | src/components/PomodoroSidebar.tsx:212-218 | an empty playlist does nothing; otherwise the next track, wrapping to the first, becomes current and plays |
| `Pomodoro.PomodoroSidebar.PreviousTrack` | src/components/PomodoroSidebar.tsx:220-226 | an empty playlist does nothing; otherwise the previous track, wrapping to the last, becomes current and plays |
| `Pomodoro.PomodoroSidebar.SelectCategory` | src/components/PomodoroSidebar.tsx:228-230 | selecting a category makes the shown tracks that category's filter of the track list |
| `Calendar.BuildMonthGrid` | src/components/Calendar.tsx:32-53 | the grid is one blank cell per weekday before the first, then each day of the month in order, and nothing more |
| `Calendar.GridColumnIsWeekday` | src/components/Calendar.tsx:32-53 | each day's cell sits in its weekday's column of a seven-column grid |
| `Calendar.PlanDate` | src/components/Calendar.tsx:62 | the date text a plan is looked up by |
| `Calendar.PlanForDate` | src/components/Calendar.tsx:60-63 | `find`: no plan exactly when none is dated that day; otherwise the first plan dated that day |
| `Calendar.Indicators` | src/components/Calendar.tsx:248 | a day cell shows at most three events, the first ones, and all of them when there are at most three |
| `Calendar.OverflowLabel` | src/components/Calendar.tsx:254-255 | a "+n" label appears exactly when the day has more than three events |
| `Calendar.IndicatorsAccountForAll` | src/components/Calendar.tsx:248-255 | the shown events and the count in the label add up to the day's events |
| `Calendar.GeneratedId` | src/components/Calendar.tsx:110 | `${planId}-${index}`; `Calendar.GeneratedIdInjective` shows distinct items get distinct ids |
| `Calendar.GeneratedEvent` | src/components/Calendar.tsx:109-118 | the event built from one schedule item; `Calendar.Candidates` lists them |
| `Calendar.Candidates` | src/components/Calendar.tsx:108-118 | one generated event per schedule item, built from the item at that index |
| `Calendar.AbsentFrom` | src/components/Calendar.tsx:121-122 | the `some` test on the captured events, negated |
| `Calendar.NewUpTo` | src/components/Calendar.tsx:108-126 | the events the first steps of the loop add; `Calendar.NewUpToIsFilter` ties it to `Calendar.NewEvents` |
| `Calendar.NewUpToIsFilter` | src/components/Calendar.tsx:108-126 | the events kept after the first n schedule items are the first n candidates whose ids are not yet known |
| `Calendar.GeneratedIdInjective` | src/components/Calendar.tsx:110 | different schedule indexes give different event ids |
| `Calendar.CandidateIdsDistinct` | src/components/Calendar.tsx:108-118 | the generated events of one plan have distinct ids |
| `Calendar.NewEvents` | src/components/Calendar.tsx:105-127 | what a generation adds: the candidates whose id the captured list lacks; `Calendar.NewEventsSpec`, `Calendar.GeneratingTwiceAddsNothing` and `Calendar.GeneratingKeepsUniqueIds` state it |
| `Calendar.NewEventsSpec` | src/components/Calendar.tsx:105-127 | every schedule item whose id is not yet known yields its event, and every added event is a generated event of the day with a fresh id |
| `Calendar.GeneratingTwiceAddsNothing` | src/components/Calendar.tsx:120-125 | generating again from the same plan adds nothing |
| `Calendar.GeneratingKeepsUniqueIds` | src/components/Calendar.tsx:120-125 | generation keeps the event ids unique |
| `Calendar.CanCreate` | src/components/Calendar.tsx:82 | `handleCreateEvent`'s guard; `Calendar.CanCreateSpec` states when it fails |
| `Calendar.EventFromDraft` | src/components/Calendar.tsx:84-92 | the event a filled-in form makes, saved and appended by `Calendar.CalendarPanel.CreateEvent` |
| `Calendar.CanCreateSpec` | src/components/Calendar.tsx:82 | an event cannot be created exactly when no date is selected or the title is blank |
| `Calendar.CalendarPanel.constructor` | src/components/Calendar.tsx:13-30 | the panel loads the stored events and plans, with no date selected, the dialog closed and an empty draft |
| `Calendar.CalendarPanel.EventsForDate` | src/components/Calendar.tsx:55-58 | the day's events are exactly the panel's events dated that day |
| `Calendar.CalendarPanel.SelectDate` | src/components/Calendar.tsx:77-79 | the clicked day becomes the selected date and nothing else changes |
| `Calendar.CalendarPanel.EditDraft` | src/components/Calendar.tsx:377-414 | the dialog is open and the draft holds the typed fields |
| `Calendar.CalendarPanel.CreateEvent` | src/components/Calendar.tsx:81-98 | without a date or a title nothing changes; otherwise the new event is saved to the store, appended to the panel's list, the dialog closes and the draft is cleared |
| `Calendar.CalendarPanel.DeleteEvent` | src/components/Calendar.tsx:100-103 | the event is removed from the store and from the panel's list |
| `Calendar.CalendarPanel.GenerateEventsFromPlan` | src/components/Calendar.tsx:105-127 | without a plan or a date nothing changes; otherwise the new events are appended to the panel's list and saved one by one to the store |
| `Calendar.CalendarPanel.DeployPlan` | src/components/Calendar.tsx:108-126 | the loop over the schedule appends the new events to the panel and saves each to the store |
| `Calendar.CalendarPanel.DeployItem` | src/components/Calendar.tsx:109-125 | one pass of the loop extends the processed prefix by one schedule item |
| `Calendar.CalendarPanel.AddIfAbsent` | src/components/Calendar.tsx:120-125 | an event whose id the captured list already holds is skipped; otherwise it is saved and appended |
| `Calendar.GenerationKeepsStoreInStep` | src/components/Calendar.tsx:120-125 | when the panel and the store hold the same events, generation appends the same events to both |
| `App.ValidContent` | src/App.tsx:40-45 | the check on the generated content; `App.ForceForecastApp.PromptSubmit` states both outcomes |
| `App.FinalPrompt` | src/App.tsx:38 | an entered prompt is used as typed; an empty one is replaced by one of the four non-empty default prompts |
| `App.NewPlan` | src/App.tsx:48-57 | the `newPlan` record; `App.NewPlanSpec` and `App.NewPlanShownToday` state it |
| `App.NewPlanSpec` | src/App.tsx:48-57 | a new plan carries the generated schedule, goals and journal prompt, the prompt it was made for and an empty journal entry; its id reads back as the current time; once saved, the collection holds it, and a calendar that loads the plans after the save shows some plan on today's cell |
| `App.NewPlanShownToday` | src/App.tsx:48-57 | when no other saved plan is dated today, a calendar that loads the plans after the save shows the new plan itself on today's cell |
| `App.ExportFileName` | src/App.tsx:103 | the text export's download name; `App.ExportFileNameSpec` states it |
| `App.ExportFileNameSpec` | src/App.tsx:103 | the export file name holds no '/', is 19 characters longer than the date, and keeps every other character of the date in place |
| `App.ToYodaSpeak` | src/App.tsx:220-224 | `toYodaSpeak`, which nothing in the app calls (Yoda mode only shows an image, src/App.tsx:229); `App.YodaSpeakReversesWords` and `App.YodaSpeakInvolution` state it |
| `App.YodaSpeakReversesWords` | src/App.tsx:220-224 | the Yoda-speak of a text has the text's words in reverse order |
| `App.YodaSpeakInvolution` | src/App.tsx:220-224 | Yoda-speak applied twice gives the text back; with the mode off it changes nothing |
| `App.YodaMatched` | src/App.tsx:210 | the joined buffer equals the joined code; `App.YodaMatchIsExact` makes it an equality of key lists |
| `App.PressKey` | src/App.tsx:207-214 | the buffer holds at most ten keys; a match is reported exactly when the last ten keys join to the code, and then the buffer is emptied |
| `App.PushThenShift` | src/App.tsx:208-209 | the handler's push-then-shift gives the buffer that is tested |
| `App.YodaMatchIsExact` | src/App.tsx:210 | for comma-free key names, the joined comparison holds exactly when the buffer is the code |
| `App.PressKeys` | src/App.tsx:207-214 | after any keydowns the buffer holds at most ten keys |
| `App.PressKeyBelowCapacity` | src/App.tsx:208-209 | below ten keys a keydown pushes without shifting |
| `App.CodePrefixDoesNotMatch` | src/App.tsx:210 | part of the code is not a match |
| `App.TypingYodaPrefix` | src/App.tsx:207-214 | typing part of the code into an empty buffer only fills the buffer and leaves the mode alone |
| `App.FillPrefix` | src/App.tsx:207-214 | typing keys none of whose prefixes completes the code fills an empty buffer with exactly those keys and leaves the mode alone |
| `App.FillStep` | src/App.tsx:208-213 | one more key below capacity that completes no match only grows the buffer |
| `App.TypingYodaCodeToggles` | src/App.tsx:201-214 | typing the code into an empty buffer toggles Yoda mode once and empties the buffer |
| `App.ForceForecastApp.constructor` | src/App.tsx:20-29 | the app starts with no plan, an empty journal, results hidden and Yoda mode off |
| `App.ForceForecastApp.PromptSubmit` | src/App.tsx:31-65 | invalid generated content leaves the plan and journal alone; valid content becomes the current plan with an empty journal; loading ends either way |
| `App.ForceForecastApp.RevealResults` | src/App.tsx:64 | the delayed reveal shows the results and changes nothing else |
| `App.ForceForecastApp.EditJournal` | src/App.tsx:683 | the journal entry becomes the typed text |
| `App.ForceForecastApp.HandleSave` | src/App.tsx:67-82 | without a plan nothing is stored; otherwise the plan with the journal entry written in is saved to the store and becomes the current plan |
| `App.ForceForecastApp.HandleExportText` | src/App.tsx:95-107 | a file exactly when there is a plan: named after its date without any '/', holding the text brief of the plan with the current journal entry |
| `App.ForceForecastApp.HandleClear` | src/App.tsx:109-113 | the plan and journal are cleared and the results hidden |
| `App.ForceForecastApp.OnKeyDown` | src/App.tsx:207-214 | the buffer becomes the key press's buffer, and Yoda mode flips exactly on a match |

## Left out

- JSON encoding: the local store is a map from key to the list stored there. What `JSON.parse` and `JSON.stringify` do is not modelled. `exportPlans` and `handleExport` (a pretty-printed JSON download) are left out for the same reason.
- Downloads: `Blob`, object URLs and the link click are not modelled. `HandleExportText` returns the file name and the contents.
- I/O outside the program: notifications, audio playback and `requestPermission` are left out. So are the DOM class toggle of the lightsaber cursor, the save button's text feedback and `alert`.
- Controls with no logic: volume, mute and the settings toggle of the timer panel.
- Controls with no logic: the open/close flags of the panels and the game (`isOpen`, `onClose`), except where a handler tests `isOpen`.
- Controls with no logic: the calendar's `viewMode`.
- Rendering: what the components render is left out. The exceptions are the day-cell indicator rule and the file name of the text export.
- The calendar's `navigateMonth` is not modelled. The grid takes the year and month as arguments.
- Dates: `Date` is a calendar day `(year, month, day)`.
- `toISOString` and `toDateString` are not modelled. An event's date is that day, and the per-day lookups compare days. This assumes the time zone the dates were made in is the one they are read in.
- `toLocaleDateString` is modelled as the en-US "M/D/YYYY" text. Other locales are not modelled.
- The content generator and its delay: the generator's reply is a parameter of `PromptSubmit`. Its one check is modelled: a missing reply, a non-array schedule or goal list, or a non-string journal prompt is rejected. The reply is assumed to hold well-formed schedule items. The `alert` on rejection is not modelled.
- `Date.now()` ids: the model does not rule out two events created in the same millisecond. The store then overwrites one of them while the panel appends both. `CreateEvent` states both updates exactly as the source makes them.
- Pomodoro.PomodoroSidebar.TogglePlayPause: the check for a missing audio element is not modelled. The model assumes the element is mounted, as it is while the panel is open.
- The playlist of the timer panel is never filled by the source, since nothing calls `setPlaylist`. The model starts it empty. `NextTrack`, `PreviousTrack`, `NextIndex` and `PrevIndex` are stated for any playlist length.
- The interval timer: `setInterval`/`clearInterval` are not modelled. Each one-second callback is a call of `IntervalTick`, and each run of the effect is a call of `TimerEffect`. The caller decides the order.
- The music tracks' URLs, artists and durations are left out. The category filter only reads the category; the titles and ids are kept.
- The opponent's `color` field is kept but never read.
- `Battle.ForceSensitiveDue` follows the source: "Force Sensitive" unlocks once the score plus one reaches ten, because the score stands in for a count of Force uses. The promise "use Force powers 10 times" is not modelled.
- The "Do or Do Not" achievement is listed by the source but never unlocked, so it is not modelled.
- React batching: `Battle.PlayerTurn` unlocks each achievement at the point the source calls `unlockAchievement`. The as-written behaviour is the update queue of `Battle.PlayerTurnAsWritten`; see Findings.
- Battle.PlayerTurnAsWritten: models the queue on `gameState` only. React runs the overridden updaters at render, so their "Achievement Unlocked" log lines are queued then, after the action's own lines; those late log lines are not modelled.
- Battle.BattleSimulator.HandleKeyPress: the unlock's updater is deferred to render, as it is when `setKonami` has already queued an update, so its announcement follows R2-D2's line. The order React would use if the updater ran eagerly is not modelled.
- React's development double call of updaters in strict mode is not modelled; the updaters here are pure apart from their log call.
- Calendar.CalendarPanel.DeployPlan: all events of one generation share one `createdAt`, while the source evaluates `new Date().toISOString()` for each event. Nothing reads the field, so only its value differs.
- Component lifecycles: mount effects run once, in the constructors. Listener registration and removal are not modelled. The keydown handlers are methods.
- Calendar.CalendarPanel.constructor: the calendar reads the stored plans once, when it mounts (src/components/Calendar.tsx:27-30), and `App` keeps it mounted (src/App.tsx:874-878). A plan saved later reaches it only after the app mounts again, so the panel's `plans` never change after construction. `App.NewPlanSpec` and `App.NewPlanShownToday` state what a calendar that loads the stored plans after the save shows.
- App.ToYodaSpeak: nothing in the app calls `toYodaSpeak` (src/App.tsx:220-224). Yoda mode only shows an image (src/App.tsx:229), so no text on screen is turned into Yoda-speak.
- The Yoda key buffer lives in a closure made by a mount effect. It is a field of the class, as if the effect ran once.
- Lightsaber cursor, chat box, game and panel toggles in `App`: these only open things or set CSS classes, so they are left out.

## Findings

| source | as written | input that shows it | evidently intended | confidence | as-written member | corrected member |
|---|---|---|---|---|---|---|
| src/components/StarWarsGame.tsx:131-260 | `performAction` copies the game state into `newState`, calls `unlockAchievement` (a functional updater of the same state), and then calls `setGameState(newState)`. React applies the queued updaters in order, so the final replacement discards every achievement unlocked during the action. | The first battle, with the Padawan Trainee at 10 health, attacked for 15: the opponent falls, but "First Blood" stays locked. The same holds for "Combo Master", "No Mercy", "Sith Lord", "The Chosen One" and "Force Sensitive". | The achievement called for is held after the action. | not executed | `Battle.PlayerTurnAsWritten`, shown by `Battle.AsWrittenLosesUnlocks` and `Battle.FirstBloodIsLost` | `Battle.PlayerTurn`, proved in `Battle.IntendedIsReplaceThenUnlock`, `Battle.OpponentDefeated` and `Battle.ActionStepEffect` |
