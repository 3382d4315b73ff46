# Glasstic fasting core in Dafny

Glasstic is an intermittent-fasting app for iOS, watchOS and widgets. This project models and proves properties of the logic underneath its screens:

- **The fasting session** (`fasting_manager.dfy`, module `FastingSession`). `FastingManager` is a two-state machine, idle and fasting. It starts and ends fasts, ticks once a second, and ends the fast by itself when the goal is reached. It restores a running fast on launch. Every change of state, start or goal is written through to the key/value store shared with the widget. The class keeps the Swift class's fields. The store is a `map` field. Calls to the watch, the live activity, the completion notification, HealthKit and the gamification engine are appended to an `effects` log instead of being performed. The zone lookup and the progress value shown by the live activity are pure functions beside the class.
- **The gamification engine** (`gamification.dfy`, module `Gamification`). `GamificationManager` counts completed fasts, keeps the current and longest calendar-day streaks, and unlocks badges by a fixed rule table. Its methods update the `userProfile` field step by step, as the Swift code does. Each method is proved equal to a declarative function: `AfterStreakUpdate`, `AfterBadgeCheck` or `AfterCompletion`. `Replay` folds those functions over a history of completions. The lemmas about `Replay` state what a sequence of fasts yields.
- **The user profile** (`user_profile.dfy`). `UserProfile` is a Swift struct, so it is a value. `unlockBadge` is a mutating method on that value and is modelled as a function that returns the updated profile.
- **The catalogues**: fasting zones (`fasting_zone.dfy`), badges (`badge.dfy`) and plans (`fasting_plan.dfy`).
- **Duration texts**: the gauge's `HH:MM:SS` countdown (`gauge_view.dfy`) and the fast editor's `"<h>h <m>m"` text and save rule (`fast_edit_view.dfy`). Both are proved to round-trip through a parser.

Conventions:
- Time is whole seconds since 1970. The clock is a `now` parameter.
- A calendar day is `Day(t) = (t + utcOffset) / 86400` for a fixed offset from UTC. This gives `Day(t + 86400) == Day(t) + 1` (lemma `Gamification.DayAdvance`).
- Swift's `Int` `/` and `%` truncate toward zero. They are modelled by `TimeUnits.Quot` and `TimeUnits.Rem`, because Dafny's operators are Euclidean.
- `wrappers.dfy` holds `Option`. `decimal.dfy` holds decimal rendering and parsing of integers: Swift's `"\(n)"` and `%02i`.

## Model

| member | source | states |
|---|---|---|
| FastingSession.CurrentZone | Glasstic/ContentView.swift:120 | the zone lookup used by the live activity (and by the zone panel at Glasstic/ContentView.swift:221); characterised by `CurrentZoneIsLatestReached`, `CurrentZoneBetween` and `ZoneTable` |
| FastingSession.CurrentZoneIsLatestReached | Glasstic/ContentView.swift:120 | the zone is one of the six catalogue zones; before the first threshold it is Anabolic (also for negative elapsed); otherwise its threshold has been reached and no reached zone has a larger threshold |
| FastingSession.CurrentZoneMonotone | Glasstic/ContentView.swift:120 | the reported zone's threshold never decreases as elapsed time grows |
| FastingSession.CurrentZoneBetween | Glasstic/ContentView.swift:221 | from a zone's threshold up to the next zone's threshold, the lookup returns that zone |
| FastingSession.ZoneTable | Glasstic/ContentView.swift:120 | the complete lookup: Anabolic below 12 h (including 4 h - 1 s and 4 h), Catabolic in [12 h, 16 h), Fat Burning in [16 h, 24 h), Ketosis in [24 h, 48 h), Autophagy in [48 h, 72 h), Deep Autophagy from 72 h |
| FastingSession.Progress | Glasstic/ContentView.swift:121 | with a positive goal, progress times goal equals the elapsed time; with a goal of 0 or less, progress is 0 |
| FastingSession.ProgressRange | Glasstic/ContentView.swift:121 | progress is unclamped: it lies in [0, 1] while 0 <= elapsed <= goal, is at least 1 once the goal is reached, and is negative before the start |
| FastingSession.FastingState.RawValue | Glasstic/ContentView.swift:12 | the string stored and sent for a state; `RawValueRoundTrip` shows it decodes back |
| FastingSession.StateFromRawValue | Glasstic/ContentView.swift:37 | a decoded state has the raw value it was decoded from; only "idle" and "fasting" decode |
| FastingSession.RawValueRoundTrip | Glasstic/ContentView.swift:12 | each state's raw value decodes back to that state, so what the setter writes is what the restore reads |
| FastingSession.StoredString | Glasstic/ContentView.swift:37 | `string(forKey:)`: the stored string, absent when nothing or a number is stored; characterised through `RestoredSession` |
| FastingSession.StoredDouble | Glasstic/ContentView.swift:38-39 | `double(forKey:)`: the stored number, 0 when nothing or a string is stored; characterised through `RestoredSession` |
| FastingSession.RestoredSession | Glasstic/ContentView.swift:37-39 | the restored state is fasting exactly when the string "fasting" is stored; start and goal are the stored numbers, 0 when absent |
| FastingSession.KeyNamesDistinct | Glasstic/ContentView.swift:12-24 | the key strings "fastingState", "fastingStartDate" and "fastingGoal" are pairwise different, so two keys share a name exactly when they are the same key |
| FastingSession.WriteThroughRestores | Glasstic/ContentView.swift:10-25 | writing state, start and goal under their keys makes a restore read back exactly that session, whatever the store held before |
| FastingSession.StartWritesRestore | Glasstic/ContentView.swift:54-56 | writing the start, then "fasting", then the goal makes a restore read back the fasting session with that start and goal |
| FastingSession.CompletionsAppend | Glasstic/ContentView.swift:88 | gamification calls in two concatenated logs add up |
| FastingSession.EndFastingCompletions | Glasstic/ContentView.swift:84-89 | ending records one gamification call and one HealthKit save, both for the interval from the stored start to now, exactly when the stored start is positive |
| FastingSession.ZoneUpdateEffects | Glasstic/ContentView.swift:112 | the calls a tick makes for the live activity; characterised by `ZoneUpdateCadence` and used in the contract of `Tick` |
| FastingSession.ZoneUpdate | Glasstic/ContentView.swift:118-125 | the update `updateLiveActivity()` sends: current zone and progress, nothing without a live activity; used in the contract of `UpdateLiveActivity` |
| FastingSession.EndFastingEffects | Glasstic/ContentView.swift:83-103 | the calls `endFasting()` makes, in order: HealthKit save and gamification call when a start is stored, the watch context, the live-activity end; characterised by `EndFastingCompletions` |
| FastingSession.ZoneUpdateCadence | Glasstic/ContentView.swift:112 | a tick sends a zone update exactly when elapsed % 30 == 0 and a live activity exists; the update carries the elapsed time, the current zone's name and the progress |
| FastingSession.FastingManager.Valid | Glasstic/ContentView.swift:10-24 | the invariant the manager keeps: the timer is scheduled exactly while fasting (:44, :92, :105), and the store written through by the property observers restores the current state, start and goal; established by the constructor and kept by `StartFasting`, `EndFasting`, `Tick` and `EndIfGoalReached` |
| FastingSession.FastingManager.constructor | Glasstic/ContentView.swift:31-50 | restores state, start and goal from the store without writing to it; elapsed is now - start while fasting, else 0; asks for notification and HealthKit authorization, then sends one watch context |
| FastingSession.FastingManager.SetFastingState | Glasstic/ContentView.swift:10-15 | sets the state, stores its raw value under "fastingState" and sends the watch context |
| FastingSession.FastingManager.SetElapsedTime | Glasstic/ContentView.swift:16-18 | sets the elapsed time and sends the watch context |
| FastingSession.FastingManager.SetFastingStartDate | Glasstic/ContentView.swift:20-22 | sets the start and stores it under "fastingStartDate" |
| FastingSession.FastingManager.SetFastingGoal | Glasstic/ContentView.swift:23-25 | sets the goal and stores it under "fastingGoal" |
| FastingSession.FastingManager.StartFasting | Glasstic/ContentView.swift:52-81 | whatever the prior state: fasting, start = now, goal = goal, elapsed = 0, timer running; the store holds the new session; two watch contexts, a notification for the truncated goal hours after goal seconds, and a live-activity request at Anabolic, progress 0; keeps the write-through invariant |
| FastingSession.FastingManager.EndFasting | Glasstic/ContentView.swift:83-103 | idle, start 0, goal 0, timer stopped, store updated; HealthKit and gamification calls only when the old start was positive; the live activity is ended at "Ended", progress 1, when one is held |
| FastingSession.FastingManager.StartTimer | Glasstic/ContentView.swift:105-107 | the timer is scheduled afterwards |
| FastingSession.FastingManager.Tick | Glasstic/ContentView.swift:107-115 | no change while idle; while fasting, elapsed = now - start, a zone update on each 30th second, and the fast ends exactly when elapsed >= goal |
| FastingSession.FastingManager.RecordElapsed | Glasstic/ContentView.swift:109-112 | elapsed = now - start; one watch context, then a zone update when the elapsed seconds are a multiple of 30 and a live activity exists; state, start, goal and store untouched |
| FastingSession.FastingManager.EndIfGoalReached | Glasstic/ContentView.swift:114 | below the goal nothing changes; at or past it the fast is ended as `EndFasting` ends it, and the write-through invariant holds either way |
| FastingSession.FastingManager.UpdateLiveActivity | Glasstic/ContentView.swift:118-125 | records an update with the current zone and progress only when a live activity exists |
| FastingSession.FastingManager.SendContextToWatch | Glasstic/ContentView.swift:127-134 | records the current state, start and goal |
| FastingSession.FastingManager.GetFastingGoal | Glasstic/ContentView.swift:136-138 | returns the goal |
| FastingSession.EndFastingTwice | Glasstic/ContentView.swift:84-94 | two ends in a row call the gamification engine exactly once if a start was stored before the first, and not at all otherwise; the manager is left valid and idle |
| FastingSession.FourHoursIntoSixteen | Glasstic/ContentView.swift:52-57 | a 16-hour fast ticked 4 hours in is still fasting with elapsed 14400, and its zone update reads Anabolic at progress 0.25 |
| FastingSession.Relaunch | Glasstic/ContentView.swift:37-45 | a manager built from the store alone has the same state, start and goal; its elapsed time is now - start while fasting |
| Gamification.Day | Managers/GamificationManager.swift:55-58 | the calendar day of an instant at a fixed offset from UTC; characterised by `DayAdvance` |
| Gamification.SameDay | Managers/GamificationManager.swift:55-58 | `isDate(_:inSameDayAs:)`: equal calendar days; used by `UpdateStreak` and, through `DayAdvance`, shown equal to "next day" for last fast + 24 h |
| Gamification.DayAdvance | Managers/GamificationManager.swift:55 | adding 24 hours moves to the next calendar day |
| Gamification.Earns | Managers/GamificationManager.swift:75-99 | the badge rule table: first fast at total 1, 10 and 50 fasts, 7- and 30-day streaks, fasts of 24 h and 48 h; characterised by `EarnedBadgesByRule` and `LongFastBadges` |
| Gamification.EarnedBadges | Managers/GamificationManager.swift:73-100 | the ids the rule table awards for a total, streak and duration; characterised by `EarnedBadgesByRule` |
| Gamification.NextStreak | Managers/GamificationManager.swift:53-66 | the streak after a completion; characterised by `StreakCases` |
| Gamification.AfterStreakUpdate | Managers/GamificationManager.swift:53-71 | the profile `updateStreak(for:)` leaves; `UpdateStreak` is proved equal to it |
| Gamification.AfterBadgeCheck | Managers/GamificationManager.swift:73-100 | the profile `checkAndAwardBadges(duration:)` leaves; `CheckAndAwardBadges` is proved equal to it |
| Gamification.AfterCompletion | Managers/GamificationManager.swift:38-51 | the profile `processCompletedFast` leaves; characterised by `CompletionFacts` and `CompletionCounters` |
| Gamification.Replay | Managers/GamificationManager.swift:38-51 | the profile after a history of completions; characterised by `ReplayTotal`, `ReplayLastDate`, `BadgesOnlyGrow`, `CountBadgesFromNewProfile`, `StreakCountsConsecutiveDays` and `LongestIsGreatestStreak` |
| Gamification.EarnedBadgesByRule | Managers/GamificationManager.swift:73-100 | the earned set is the union of the seven rules: "first_fast" when total == 1, "10_fasts" at 10, "50_fasts" at 50, "7_day_streak" at streak 7, "30_day_streak" at 30, "24_hour_fast" at 24 h, "autophagy_unlocked" at the Autophagy threshold |
| Gamification.ApplyRule | Managers/GamificationManager.swift:75-77 | a guarded `unlockBadge` adds the id to the badge set exactly when the guard holds and changes nothing else |
| Gamification.AwardInOrder | Managers/GamificationManager.swift:73-100 | the seven guarded `unlockBadge` steps in source order; characterised by `AwardInOrderAddsEarned` |
| Gamification.AwardInOrderAddsEarned | Managers/GamificationManager.swift:73-100 | applying the seven guarded unlocks in source order, each guard reading the profile the previous step left, equals adding the whole earned set at once |
| Gamification.CompletionCounters | Managers/GamificationManager.swift:38-71 | one completion: total + 1, the streak per the calendar rule, longest = max(old longest, new streak), last fast date = end |
| Gamification.CompletionFacts | Managers/GamificationManager.swift:38-100 | one completion: total + 1, the streak per the calendar rule, longest = max(old longest, streak) >= streak, last fast date = end; badges = old set plus the earned rule-table ids, so they only grow and only by awardable ids |
| Gamification.StreakCases | Managers/GamificationManager.swift:53-66 | the streak is 1 with no last fast, +1 on the next calendar day, unchanged on the same day, and 1 on any other day |
| Gamification.LongFastBadges | Managers/GamificationManager.swift:93-99 | a fast of 48 hours or more unlocks both "24_hour_fast" and "autophagy_unlocked" |
| Gamification.AwardableIdsInCatalogue | Models/Badge.swift:11-19 | every id the engine can award is found by `badge(for:)` |
| Gamification.ReplayTotal | Managers/GamificationManager.swift:42 | after N completions the total has grown by exactly N |
| Gamification.ReplayLastDate | Managers/GamificationManager.swift:70 | the last fast date is the end of the last completion |
| Gamification.BadgesOnlyGrow | Managers/GamificationManager.swift:73-100 | the badge set after any prefix of the history is contained in the set after the whole history |
| Gamification.CountBadgesFromNewProfile | Managers/GamificationManager.swift:75-84 | from a new profile, "first_fast", "10_fasts" and "50_fasts" are held exactly when at least 1, 10 or 50 fasts have been completed |
| Gamification.StreakCountsConsecutiveDays | Managers/GamificationManager.swift:53-66 | after an unbroken run of completions on consecutive or repeated days, the streak is the number of calendar days the run spans |
| Gamification.LongestBoundsStreaks | Managers/GamificationManager.swift:67-69 | the longest streak never falls below the loaded value nor below the streak reached after any call |
| Gamification.LongestIsReached | Managers/GamificationManager.swift:67-69 | the longest streak is the loaded value or the streak reached after some call |
| Gamification.LongestIsGreatestStreak | Managers/GamificationManager.swift:67-69 | the longest streak is at least every streak reached and equals one of them or the loaded value |
| Gamification.GamificationManager.constructor | Managers/GamificationManager.swift:10-27 | the stored profile when one decodes, else a new profile |
| Gamification.GamificationManager.ProcessCompletedFast | Managers/GamificationManager.swift:38-51 | the profile becomes `AfterCompletion` of the old one and is saved |
| Gamification.GamificationManager.UpdateStreak | Managers/GamificationManager.swift:53-71 | the step-by-step update equals `AfterStreakUpdate`, with "same day as last fast + 24 h" shown to mean "the next calendar day" |
| Gamification.GamificationManager.CheckAndAwardBadges | Managers/GamificationManager.swift:73-100 | the seven conditional unlocks equal adding `EarnedBadges` for the current total, streak and duration |
| Gamification.GamificationManager.AwardIf | Managers/GamificationManager.swift:75-77 | one `if condition { unlockBadge(id) }` step: the profile becomes `ApplyRule` of the old one |
| Gamification.GamificationManager.SaveProfile | Managers/GamificationManager.swift:29-36 | the saved profile is the current profile |
| Gamification.GamificationManager.GetProfile | Managers/GamificationManager.swift:102-104 | returns the current profile |
| Profiles.UserProfile.UnlockBadge | Models/UserProfile.swift:11-13 | the id is in the new set; the new set is the old set plus that id and nothing else; a second unlock changes nothing; streaks, total and last fast date are unchanged |
| Profiles.NewProfile | Models/UserProfile.swift:5-9 | no badges, both streaks 0, total 0, no last fast date |
| FastingZones.CatalogueShape | Models/FastingZone.swift:13-64 | six zones with strictly increasing thresholds and distinct names; Anabolic first with the smallest threshold; Autophagy in the catalogue at 48 h |
| FastingZones.CatalogueContents | Models/FastingZone.swift:13-64 | the catalogue is Anabolic, Catabolic, Fat Burning, Ketosis, Autophagy, Deep Autophagy in that order, at 4, 12, 16, 24, 48 and 72 h |
| FastingZones.CatalogueOrdered | Models/FastingZone.swift:13-64 | the catalogue is non-empty, starts with Anabolic and has strictly increasing thresholds |
| FastingZones.Reached | Glasstic/ContentView.swift:120 | the zones whose threshold is reached, in catalogue order; characterised by `ReachedMembers` |
| FastingZones.LastReachedOr | Glasstic/ContentView.swift:120 | the last reached zone, or the fallback when none is reached; characterised by `LastReachedOrBounds` and `LastReachedIsLatest` |
| FastingZones.ReachedMembers | Glasstic/ContentView.swift:120 | the filter keeps exactly the zones whose threshold is at most the elapsed time |
| FastingZones.LastReachedOrBounds | Glasstic/ContentView.swift:120 | for any catalogue ordered by threshold whose first zone is the fallback, `filter { … }.last ?? fallback` is a catalogue zone; it is the fallback before the first threshold; otherwise its threshold has passed and no passed threshold is larger |
| FastingZones.LastReachedIsLatest | Glasstic/ContentView.swift:221 | in a strictly increasing catalogue, the last kept zone has the greatest threshold of those kept |
| Badges.CatalogueShape | Models/Badge.swift:11-19 | seven badges with pairwise distinct ids |
| Badges.CatalogueContents | Models/Badge.swift:11-19 | seven badges whose ids are "first_fast", "7_day_streak", "30_day_streak", "10_fasts", "50_fasts", "24_hour_fast" and "autophagy_unlocked", in source order |
| Badges.CatalogueIds | Models/Badge.swift:11-19 | the set holds the id of every catalogue badge and nothing else |
| Badges.FirstWithId | Models/Badge.swift:22 | `None` exactly when no entry has the id; otherwise an entry with that id, the first in catalogue order |
| Badges.BadgeFor | Models/Badge.swift:21-23 | `badge(for:)`: the first catalogue entry with the id; characterised by `BadgeForFindsEntry` |
| Badges.BadgeForFindsEntry | Models/Badge.swift:21-23 | with distinct ids, `badge(for:)` returns the unique entry with that id, or nil when there is none |
| FastingPlans.FastingPlan.DurationInHours | Models/FastingPlan.swift:9-11 | the hours are the duration divided by 3600, truncated toward zero |
| FastingPlans.DefaultPlansShape | Models/FastingPlan.swift:13-18 | the plans are 16:8, 18:6, 20:4 and OMAD at 16, 18, 20 and 23 hours; every duration is positive and a whole number of hours |
| TimeUnits.Quot | Views/GaugeView.swift:49 | Swift's truncating division: the quotient rounds toward zero |
| TimeUnits.Rem | Views/GaugeView.swift:51 | Swift's remainder: a == quotient * b + remainder, with the remainder carrying the sign of a and smaller than b in magnitude |
| TimeUnits.MinutesThenHours | Views/GaugeView.swift:49-50 | dividing by 60 twice equals dividing by 3600 |
| TimeUnits.RemZeroIffDivides | Glasstic/ContentView.swift:112 | the truncating remainder is 0 exactly when the Euclidean one is |
| Gauge.ClockFields | Views/GaugeView.swift:49-51 | hours * 3600 + minutes * 60 + seconds == t; for t >= 0 minutes and seconds lie in [0, 59]; for t <= 0 every field is <= 0 |
| Gauge.TimeString | Views/GaugeView.swift:48-53 | the gauge text; characterised by `TimeStringRoundTrip` and `TimeStringWidth` |
| Gauge.TimeStringRoundTrip | Views/GaugeView.swift:48-53 | parsing the text back gives the same number of seconds, for every t, negative included |
| Gauge.TimeStringWidth | Views/GaugeView.swift:52 | for 0 <= t < 100 h the text is 8 characters with ':' at positions 2 and 5 |
| Decimal.NatString | Views/FastEditView.swift:25 | the decimal digits of a non-negative number: non-empty, all digits, one character exactly below 10, no leading zero when positive |
| Decimal.IntString | Views/FastEditView.swift:25 | interpolated integer text: non-empty, digits and a minus sign only, all digits exactly when the number is non-negative |
| Decimal.Pad2 | Views/GaugeView.swift:52 | `%02i` text: at least two characters, exactly two digits for 0 to 99 |
| Decimal.Pad2RoundTrip | Views/GaugeView.swift:52 | `%02i` text is at least two characters and parses back to its number |
| Decimal.IntStringRoundTrip | Views/FastEditView.swift:25 | the interpolated decimal text parses back to its number |
| FastEdit.OpenEditor | Views/FastEditView.swift:11-16 | the editor opens at the log's start and end; characterised by `UneditedSaveRoundTrip` |
| FastEdit.EditedDuration | Views/FastEditView.swift:18-20 | start + duration == end |
| FastEdit.DurationFields | Views/FastEditView.swift:23-24 | for d >= 0, minutes in [0, 59] and h * 3600 + m * 60 <= d < h * 3600 + m * 60 + 60; fields <= 0 for d <= 0; always d minus its seconds remainder |
| FastEdit.DurationText | Views/FastEditView.swift:22-26 | the duration text; characterised by `DurationTextRoundTrip` |
| FastEdit.DurationTextRoundTrip | Views/FastEditView.swift:22-26 | the text parses back to the duration with its seconds dropped |
| FastEdit.ParseHoursMinutes | Views/FastEditView.swift:25 | any "<h>h <m>m" written with Swift numerals parses back to h hours and m minutes |
| FastEdit.SaveEnabled | Views/FastEditView.swift:111 | Save is enabled exactly when start < end |
| FastEdit.ShowsOrderWarning | Views/FastEditView.swift:75-79 | the warning is shown exactly when end <= start |
| FastEdit.WarningIffSaveDisabled | Views/FastEditView.swift:75-111 | the warning is shown exactly when Save is disabled |
| FastEdit.Save | Views/FastEditView.swift:97-104 | a log only when the duration is positive; its date is the edited end, its start the edited start, and start + duration == date |
| FastEdit.UneditedSaveRoundTrip | Views/FastEditView.swift:11-16 | saving an unedited valid log gives back the same log |

## Left out

- SwiftUI layout, animation and the gauge's floating-point wave are not modelled. This covers `ContentView.body`, `WaveShape`, and the onboarding, profile, plan selector and calendar screens.
- HealthKit, Watch Connectivity, ActivityKit and notifications are not modelled. Each call to them is an `Effect` record. Their failures and callbacks are not modelled.
- Whether ActivityKit grants a live-activity request is the `activityGranted` parameter of `StartFasting`.
- The `Task { … }` blocks in `endFasting` and `updateLiveActivity` run asynchronously in the app. In the model they run at once, in program order. A live-activity update that the app runs after the fast has ended would see goal 0 and report progress 0; the model does not capture this.
- The live activity is never cleared after it is ended, as in the source. A later end therefore records another `ActivityEnd`.
- The repeating `Timer` is replaced by explicit `Tick(now)` calls. Timer invalidation is the `timerScheduled` flag.
- Each operation reads the clock once. `Date()` inside the tick and inside the `endFasting` that the tick calls are the same `now`.
- Seconds are whole `int`s where the app uses `Double`.
  - `Int(elapsedTime)` is therefore the identity.
  - Progress is an exact `real`.
  - `Int` overflow is not modelled.
- The store holds only the three keys the manager uses. They are the constructors of `FastingSession.DefaultsKey`, and `Name()` gives their key strings. Other keys in the shared suite are not modelled.
- The `FastingState` enum is not among the source files of this model. Its raw values "idle" and "fasting" are assumed to be Swift's implicit raw values for a `String` enum with cases `idle` and `fasting`, which agrees with the `"idle"` default at Glasstic/ContentView.swift:37.
- `UserDefaults` type coercion (a number read back as a string, and so on) is not modelled. A value of the other kind reads as absent.
- The App Group suite failing to open (`fatalError`) is not modelled.
- `loadProfile` and `saveProfile` do JSON file I/O. A load is the optional stored profile passed to the constructor. A save always succeeds.
- Calendar days are at a fixed offset from UTC. Daylight-saving changes and other calendars are not modelled.
- `AIMessageManager` is not part of this model. Its output is random.
- The `StartTimeEditorView` operations `updateStartTime(to:)` and `getStartDate()` are not defined on `FastingManager`, so they are not part of this model.
- `CodableColor` and zone colours, trivia, benefits and emoji are not modelled.
- The zone lookup reports the zone whose threshold was last passed. At exactly 4 h that is Anabolic, not Catabolic, and Catabolic first appears at 12 h (`FastingSession.ZoneTable`). This follows the code as written. The catalogue's own comments (Models/FastingZone.swift:19 "0-4 hours", :28 "4-12 hours") read each threshold as the end of its zone, so the comments and the lookup in the code disagree; the model follows the code and does not provide a lookup in the comments' reading.
- `FastingSession.Progress` follows the code, which does not clamp progress to [0, 1] (`FastingSession.ProgressRange`).
- `FastEdit.FastingLog` has a `startTime` field because `Views/FastEditView.swift:14,101` reads and writes one. The `FastingLog` declared in `Views/CalendarView.swift:5-9` has only `date` and `duration`, so the source as given does not compile.
