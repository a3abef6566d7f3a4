# INNER-BLOOM in Dafny

INNER-BLOOM is a wellness app. The user checks in daily (mood, energy, sleep, three gratitude lines), keeps a journal that an assistant reflects on, follows multi-day journeys, talks to a guided session assistant, and watches a tree grow with their streak. All state is one client-side user document. A provider changes it through a small set of commands. The screens read it and call those commands.

This project models that document and every command that changes it. It also models the logic of each screen that decides what is shown or recorded, and proves what the app promises about them. For example:
- the streak and point rules of a check-in, and what a run of consecutive daily check-ins adds up to;
- achievement unlocking is idempotent;
- a journey advances one step per completion of the step command and ends by awarding its achievement (no screen of the app calls that command, see below);
- with distinct entry ids, the sync pass answers every entry that asked for a reflection, converges and is idempotent (an entry written offline is selected by it but left pending);
- the daily insight, taken as one step from request to stored answer, runs at most once per day, and at most five insights are kept;
- the dashboard layout move is a permutation, and moving down then up restores the layout;
- the grouped journal is a partition of the entries;
- the word cloud holds the thirty most frequent retained words;
- the breathing phases cycle;
- the session clock reads back as the seconds it shows;
- the assistant's "Title:/Summary:" answer parses back to what it contains;
- the favourites-first sort is stable and a permutation.

Modules follow the source files:

- `Types` covers `types.ts` and the catalogs of `constants.ts`. `Text` holds string helpers: `trim`, decimal numerals and `padStart`.
- `UserDocument` holds the document updaters of `context/UserContext.tsx`, as pure functions. `UserContext` holds the provider, as a class whose methods apply them.
- One module per screen or component: `WellnessTree`, `Dashboard`, `CheckInModal`, `Journeys`, `Journal`, `Community`, `Progress`, `Tools`, `GuidedSession`, `Affirmations`.
- `GeminiService`: the service wrappers of `services/geminiService.ts`.

Modelling conventions:
- **Dates** are integer day numbers. Two date strings are equal exactly when their day numbers are; "yesterday" is the day number minus one. Session timestamps are milliseconds.
- **Clock readings, random values, `navigator.onLine` and record ids** are parameters of the operations.
- **Each remote model call** is a function parameter returning `Option<string>`: `None` means the call threw. The word cloud starts from the sequence of lower-cased tokens.
- **Updater order.** Where an updater calls another command inside it (an unlock inside a check-in or a journey step), the inner update is applied after the outer one.

Where the code and its documentation differ, the model follows the code:
- a second check-in on the same day is not rejected: it records another check-in and adds points;
- starting a journey does not check for one already active;
- the sleep-versus-mood chart, whose axis reads "Sleep Quality (Previous Night)", pairs each check-in's mood with the sleep of the check-in recorded before it, whatever its date: after a gap of days, or a second check-in on the same day, that is not the previous night;
- no screen passes a journey step: the only call of `addJournalEntry` (Journal.tsx:45) passes none, and no screen calls `completeJourneyStep`; `addJournalEntry` calls it only when given a journey step, which its one caller never passes. So in the app as written a started journey never advances; the journey properties hold of the commands, as a caller would use them;
- pressing Enter in the intention input does nothing: `e.key === 'Enter' && handleAddIntention` (Community.tsx:184) evaluates the handler without calling it. Only the button runs CommunityScreen.HandleAddIntention;
- an entry written offline stays pending for ever, because the sync pass only reflects entries that asked for it;
- the Affirmations screen reads `userData.affirmations` and calls `addAffirmation`, but the document and the provider define neither. The screen is modelled over an affirmation list given as a parameter, with the record shape the screen uses. The initial document has no `affirmations` list, so as written the screen's `userData.affirmations.filter` fails on the first render; the modelled screen logic applies once such a list exists.

## Model

| member | source | states |
|---|---|---|
| Types.Take | context/UserContext.tsx:222 | `slice(0, n)`: the first `min(n, length)` items, a prefix of the list |
| Text.BlankIffAllSpace | screens/Journal.tsx:44 | `trim() === ''` holds exactly when every character is white space |
| Text.NonSpaceNotBlank | screens/Community.tsx:50 | text with a character other than white space passes the blank guard |
| Text.TrimStart | screens/Journal.tsx:44 | the text with its leading white space removed is empty or starts with a character other than space |
| Text.TrimStartShape | screens/Journal.tsx:44 | what leading trimming keeps is a suffix of the text, and everything it drops is white space |
| Text.TrimEnd | screens/Journal.tsx:44 | the text with its trailing white space removed is empty or ends with a character other than space |
| Text.TrimEndShape | screens/Journal.tsx:44 | what trailing trimming keeps is a prefix of the text, and everything it drops is white space |
| Text.Trim | screens/Journal.tsx:44 | `trim()`: the result is empty or starts and ends with a character other than white space; BlankIffAllSpace says when it is empty |
| Text.TrimShape | screens/Journal.tsx:44 | `trim()` keeps one slice of the text and everything it drops on either side is white space |
| Text.IsBlank | screens/Journal.tsx:44 | the blank guard `trim() === ''`; by BlankIffAllSpace it holds exactly for text made only of white space |
| Text.NatToString | screens/Journeys.tsx:40 | `toString()` of a non-negative integer: at least one digit, one digit exactly below ten |
| Text.ParseNatToString | screens/Journeys.tsx:40 | the decimal numeral reads back as the number |
| Text.TwoDigitsRoundTrip | screens/Session.tsx:134-138 | below 100, `padStart(2,'0')` of the numeral has two digits and reads back as the number |
| UserDocument.DefaultUserData | context/UserContext.tsx:50-63 | the initial document is consistent, with no check-in, no streak, no points, no entries, no achievements, no insights |
| UserDocument.FindJourney | screens/Journeys.tsx:13 | the first catalog journey with the id, or none exactly when no journey has it |
| UserDocument.KnownJourneys | constants.ts:52-68 | the catalog holds one journey, of seven steps |
| UserDocument.UnlockAchievement | context/UserContext.tsx:72-84 | an unknown id is appended and earns 50 points; a known id changes nothing; nothing else changes |
| UserDocument.UnlockIdempotent | context/UserContext.tsx:74-76 | unlocking the same achievement twice is unlocking it once |
| UserDocument.UnlockKeepsConsistent | context/UserContext.tsx:72-84 | unlocking keeps the document consistent: no duplicate achievements, non-negative points |
| UserDocument.NextStreak | context/UserContext.tsx:124-133 | a check-in the day after the last one extends the streak; on the same day it keeps it; otherwise it restarts at 1 |
| UserDocument.CompleteCheckIn | context/UserContext.tsx:116-147 | records today's check-in first, sets the last check-in to today, updates the streak, adds 10 points plus 50 when a streak of 7 first unlocks its achievement |
| UserDocument.CheckInKeepsConsistent | context/UserContext.tsx:116-147 | a check-in keeps the document consistent (streak zero exactly when there was no check-in) |
| UserDocument.ConsecutiveCheckIns | context/UserContext.tsx:124-144 | from the initial document, n check-ins on consecutive days give streak n and 10n points, plus 50 and the streak achievement once n reaches 7 |
| UserDocument.SameDayRepeat | context/UserContext.tsx:124-133 | a second check-in on the same day keeps the streak yet records another check-in and another 10 points |
| UserDocument.ReplaceById | context/UserContext.tsx:105-110 | every entry with the updated id is replaced by the update, every other entry kept, the length unchanged |
| UserDocument.UpdateJournalEntry | context/UserContext.tsx:105-110 | only the journal changes, by replacement by id |
| UserDocument.ReplaceByIdKeepsIds | context/UserContext.tsx:107-108 | replacement keeps every position's id and installs the update where the id matches |
| UserDocument.ReplaceByIdIdempotent | context/UserContext.tsx:107-108 | replacing by id twice with the same entry is replacing once |
| UserDocument.AddSession | context/UserContext.tsx:112-114 | the session goes first in the history; nothing else changes |
| UserDocument.UpdateDashboardLayout | context/UserContext.tsx:213-215 | the layout is replaced; nothing else changes |
| UserDocument.StartJourney | context/UserContext.tsx:166-168 | the journey becomes active at step 0, whatever was active; nothing else changes |
| UserDocument.CompleteJourneyStep | context/UserContext.tsx:170-193 | no active or unknown journey: no change; a step before the last advances by one; the last step clears the journey, records it as completed, adds 100 points and unlocks its achievement |
| UserDocument.JourneyKeepsConsistent | context/UserContext.tsx:166-193 | starting a journey and completing a step keep the document consistent (the active step stays inside the journey) |
| UserDocument.JourneyAdvances | context/UserContext.tsx:178-181 | k completions before the end move the active step k places and change nothing else |
| UserDocument.JourneyCompletes | context/UserContext.tsx:166-193 | after starting a journey, the k-th completion shows step k, and completing every step finishes it with its bonus and achievement |
| UserDocument.RecordEntry | context/UserContext.tsx:86-99 | the new entry goes first; on an empty journal first_entry, on a journal of nine entries 10_entries is appended with +50 points unless already unlocked; nothing else changes |
| UserDocument.AddJournalEntry | context/UserContext.tsx:86-103 | the document with the entry recorded, followed by completeJourneyStep when the entry belongs to a journey step; check-ins and streak are untouched |
| UserDocument.EntryMilestones | context/UserContext.tsx:86-103 | the first and the tenth entry always leave their achievement unlocked, journey step or not; any other entry without a journey step changes only the journal |
| UserDocument.JourneyStepKeepsAchievements | context/UserContext.tsx:169-193 | completing a journey step never removes an achievement |
| UserDocument.NewEntry | context/UserContext.tsx:87-93 | a new entry has no reflection and is not loading; it is synced and needs a reflection exactly when online. Journal.NewEntryIsPending shows it pending either way |
| UserDocument.AddJournalEntryKeepsConsistent | context/UserContext.tsx:86-103 | adding an entry keeps the document consistent |
| UserDocument.SyncQueue | context/UserContext.tsx:153 | the queue is the entries not synced or still needing a reflection |
| UserDocument.IsQueued | context/UserContext.tsx:153 | the queue filter: not synced, or still needing a reflection; SyncQueue holds exactly the entries it accepts |
| UserDocument.Reflected | context/UserContext.tsx:158-159 | a processed entry keeps its id, date and content, is synced, no longer needs or loads a reflection, and carries the service's reflection |
| UserDocument.SyncStep | context/UserContext.tsx:155-161 | an entry that does not need a reflection is skipped; otherwise it is replaced by its reflected form |
| UserDocument.ReplaceByIdsCollapse | context/UserContext.tsx:157-159 | the loading-flag update followed by the result update equals the result update alone |
| UserDocument.SyncAll | context/UserContext.tsx:155-161 | the loop over the queue snapshot as a fold of SyncStep, keeping the journal's length; SyncedClosedForm, SyncConverges and SyncIdempotent state what a pass gives |
| UserDocument.SyncAllPointwise | context/UserContext.tsx:152-163 | with unique ids, visiting queued entries replaces exactly those that need a reflection by their reflected forms |
| UserDocument.SyncedClosedForm | context/UserContext.tsx:152-163 | with unique ids, a sync pass maps each entry to its reflected form if it needs one and leaves it unchanged otherwise |
| UserDocument.SyncConverges | context/UserContext.tsx:152-163 | after a sync pass no entry needs a reflection, and every entry that did is synced with the service's reflection |
| UserDocument.SyncIdempotent | context/UserContext.tsx:152-163 | a second sync pass changes nothing |
| UserDocument.OfflineEntryStaysPending | context/UserContext.tsx:92-95 | an entry written offline is queued, left unchanged by the sync pass, and still queued afterwards |
| UserDocument.SyncDuringOutage | context/UserContext.tsx:158 | if every service call fails, each entry that asked for a reflection is still marked synced, with the fallback text as its reflection |
| UserDocument.RecordInsight | context/UserContext.tsx:223 | the new insight goes first, at most five kept (the four newest before it), and the insight date becomes today |
| UserDocument.RunDailyInsight | context/UserContext.tsx:218-227 | when the date differs from today and there are more than three check-ins, records the insight generated from the 14 newest check-ins and 5 newest entries; otherwise no change |
| UserDocument.InsightDue | context/UserContext.tsx:220 | the effect's guard: the last insight is not from today and there are more than three check-ins; InsightOncePerDay shows it false after a run |
| UserDocument.InsightOncePerDay | context/UserContext.tsx:220 | running the daily insight twice on one day is running it once |
| UserDocument.InsightKeepsConsistent | context/UserContext.tsx:218-227 | the daily insight keeps the document consistent, in particular at most five insights |
| UserContext.UserProvider.UnlockAchievement | context/UserContext.tsx:72-84 | the provider's document becomes the unlocked document and stays consistent |
| UserContext.UserProvider.constructor | context/UserContext.tsx:50-67 | the provider starts with the initial document, the check-in modal closed, no soundscape and nothing playing |
| UserContext.UserProvider.AddJournalEntry | context/UserContext.tsx:86-103 | the provider's document becomes the document with the entry added |
| UserContext.UserProvider.UpdateJournalEntry | context/UserContext.tsx:105-110 | the provider's journal is updated by id |
| UserContext.UserProvider.AddSession | context/UserContext.tsx:112-114 | the provider records the session |
| UserContext.UserProvider.CompleteCheckIn | context/UserContext.tsx:116-147 | the provider records the check-in and closes the check-in modal; the player is untouched |
| UserContext.UserProvider.ProcessSyncQueue | context/UserContext.tsx:152-163 | the loop over the queue snapshot leaves the journal equal to the sync pass over the old journal, and only the journal changes |
| UserContext.UserProvider.SyncEntry | context/UserContext.tsx:156-160 | an entry that needs a reflection ends up replaced by its reflected form (the loading mark in between is overwritten); any other entry leaves the journal as it was |
| UserContext.UserProvider.StartJourney | context/UserContext.tsx:166-168 | the provider starts the journey |
| UserContext.UserProvider.CompleteJourneyStep | context/UserContext.tsx:170-193 | the provider completes the active step |
| UserContext.UserProvider.PlaySoundscape | context/UserContext.tsx:196-199 | the soundscape becomes active and playing |
| UserContext.UserProvider.ToggleSoundscape | context/UserContext.tsx:201-205 | with an active soundscape playback flips; without one nothing changes |
| UserContext.UserProvider.StopSoundscape | context/UserContext.tsx:207-210 | nothing is active and nothing plays |
| UserContext.UserProvider.OpenCheckInModal | context/UserContext.tsx:69 | the modal is open; the document and player are unchanged |
| UserContext.UserProvider.CloseCheckInModal | context/UserContext.tsx:69 | the modal is closed; the document and player are unchanged |
| UserContext.UserProvider.UpdateDashboardLayout | context/UserContext.tsx:213-215 | the provider's layout is replaced |
| UserContext.UserProvider.RunDailyInsight | context/UserContext.tsx:218-227 | the provider applies the daily insight, after which no insight is due today |
| WellnessTree.TierOf | components/WellnessTree.tsx:15-33 | the tier is the highest whose lowest streak the streak reaches |
| WellnessTree.TierBoundaries | components/WellnessTree.tsx:15-33 | each tier is shown exactly for its streak range: up to 1, 2-4, 5-9, 10-19, 20-29, 30 and up |
| WellnessTree.TierMonotone | components/WellnessTree.tsx:15-33 | a longer streak never shows a smaller tree |
| WellnessTree.TreeView | components/WellnessTree.tsx:15-33 | the component shows the streak's tier with that tier's description |
| WellnessTree.Description | components/WellnessTree.tsx:15-33 | the six tier descriptions; DescriptionsDistinct proves no two tiers share one, NoStreakIsSprout gives the first |
| WellnessTree.DescriptionsDistinct | components/WellnessTree.tsx:15-33 | no two tiers share a description |
| WellnessTree.NoStreakIsSprout | components/WellnessTree.tsx:15-17 | a streak of at most 1 shows the sprout and "A new journey begins." |
| Dashboard.Swapped | screens/Dashboard.tsx:33 | the two positions exchange their elements; every other position is kept |
| Dashboard.Move | screens/Dashboard.tsx:29-35 | a move past either end does nothing; otherwise the panel swaps with its neighbour |
| Dashboard.MovedIsPermutation | screens/Dashboard.tsx:29-35 | a move rearranges the layout without adding or losing panels |
| Dashboard.DownThenUpRestores | screens/Dashboard.tsx:29-35 | moving a panel down and then up restores the layout |
| Dashboard.CheckInHidesReminder | screens/Dashboard.tsx:64-65 | after a check-in today the reminder is hidden that day and shown again the next; the initial document shows it |
| Dashboard.HasCheckedInToday | screens/Dashboard.tsx:64-65 | `lastCheckIn === today`; CheckInHidesReminder shows it true on the day of a check-in and false the next day and initially |
| Dashboard.Greeting | screens/Dashboard.tsx:67-72 | morning before 12, afternoon from 12 to 17, evening from 18 |
| Dashboard.ActiveJourneyData | screens/Dashboard.tsx:74 | with an active journey, its catalog entry (none when the id is unknown); with no active journey, none |
| Dashboard.JourneyPanelShown | screens/Dashboard.tsx:74 | the journey panel renders exactly when the active journey is the catalog's gratitude journey |
| Dashboard.Renders | screens/Dashboard.tsx:76-108 | stats and tree always render, the journey panel only with a catalog journey active, the insight panel only with an insight; JourneyPanelShown and VisiblePanels build on it |
| Dashboard.VisiblePanels | screens/Dashboard.tsx:134 | the rendered panels are exactly the layout's panels that render, the whole layout when all render |
| Dashboard.VisiblePanelsInOrder | screens/Dashboard.tsx:134 | rendering keeps the layout's order: it distributes over concatenation |
| Dashboard.JourneyPanelStepExists | screens/Dashboard.tsx:90-99 | when the journey panel renders for a consistent document, its current step exists |
| CheckInModal.RatingValue | components/CheckInModal.tsx:14-19 | the i-th button of the reversed labels rates 5 - i, a value 1 to 5 |
| CheckInModal.ExactlyOneHighlighted | components/CheckInModal.tsx:14-19 | for a rating 1 to 5 exactly one button is highlighted, otherwise none |
| CheckInModal.ProgressWidth | components/CheckInModal.tsx:153 | the bar is step/4 of the width: empty on the first step, full on the last |
| CheckInModal.CheckInWizard.HandleNext | components/CheckInModal.tsx:45-50 | before the last step: one step on, sliding forward; on the last step: no change |
| CheckInModal.CheckInWizard.constructor | components/CheckInModal.tsx:35-41 | the wizard starts on the first step, moving forward, with all ratings 3 and three empty gratitude lines |
| CheckInModal.CheckInWizard.HandleBack | components/CheckInModal.tsx:52-57 | after the first step: one step back, sliding backward; on the first step: no change |
| CheckInModal.CheckInWizard.SelectRating | components/CheckInModal.tsx:14-19 | the clicked button's value goes to the chosen rating only |
| CheckInModal.CheckInWizard.HandleGratitudeChange | components/CheckInModal.tsx:59-63 | only the edited gratitude line changes |
| CheckInModal.CheckInWizard.ResetState | components/CheckInModal.tsx:65-71 | first step, ratings 3, three empty gratitude lines |
| CheckInModal.CheckInWizard.Answers | components/CheckInModal.tsx:74 | the submitted answers are the wizard's ratings and gratitude lines |
| CheckInModal.CheckInWizard.HandleClose | components/CheckInModal.tsx:78-85 | the modal closes, the wizard resets, the document and the soundscape player are unchanged |
| CheckInModal.CheckInWizard.HandleComplete | components/CheckInModal.tsx:73-76 | on the last step: the answers are recorded as today's check-in, the modal closes, the wizard resets and the soundscape player is unchanged |
| Journeys.BadgeOf | screens/Journeys.tsx:100-113 | completed shows the badge, else active shows in progress, else a start button enabled exactly when no journey is active |
| Journeys.IsCompleted | screens/Journeys.tsx:100 | `completedJourneys.includes(id)`; BadgeOf gives it priority over everything else |
| Journeys.IsActive | screens/Journeys.tsx:101 | the active journey has the id; BadgeOf shows it as in progress unless completed |
| Journeys.IsLocked | screens/Journeys.tsx:102 | some journey is active and it is not this one; LockedFlags states both directions |
| Journeys.LockedFlags | screens/Journeys.tsx:100-102 | a journey is locked exactly when another journey is active |
| Journeys.StartLocksOthers | screens/Journeys.tsx:100-113 | after starting a journey it is active and every other uncompleted one shows a disabled start button |
| Journeys.FinishedJourneyShowsCompleted | screens/Journeys.tsx:100-113 | after every step of a journey is completed, its card shows the completed badge |
| Journeys.ProgressPercent | screens/Journeys.tsx:54 | `Math.round(step/n*100)`: the integer nearest the ratio, halves rounded up |
| Journeys.ProgressPercentBounds | screens/Journeys.tsx:54 | the percentage is 0 on the first step and never above 100 |
| Journeys.BarWidth | screens/Journeys.tsx:50 | the bar width is step/n of 100 percent |
| Journeys.StepLabelReadsBack | screens/Journeys.tsx:40 | "Step s of n" splits into its four words, whose numerals read back as the step and the length |
| Journeys.StepLabel | screens/Journeys.tsx:40 | "Step {step + 1} of {n}"; StepLabelReadsBack shows its four words and that the numerals read back |
| Journeys.StepAction | screens/Journeys.tsx:21-25 | journal steps go to the journal, meditation and breathing steps to the tools |
| Journeys.CurrentStepAction | screens/Journeys.tsx:59-60 | an active catalog journey shows the action of its current step; otherwise none |
| Journeys.GratitudeJourneyRoutes | screens/Journeys.tsx:21-25 | days 3 and 6 of the gratitude journey send to the tools, the other days to the journal |
| Journal.KeyOf | screens/Journal.tsx:19-25 | today's entries are keyed "Today", yesterday's "Yesterday", older ones by their month-and-year label |
| Journal.KeysInOrder | screens/Journal.tsx:19-30 | the group keys are distinct and are exactly the keys of the entries |
| Journal.KeysInFirstSeenOrder | screens/Journal.tsx:19-30 | every key is listed after exactly the keys that occur before its first entry: first-seen order, as `Object.entries` gives it |
| Journal.MembersBelong | screens/Journal.tsx:27-30 | a group holds only entries of the journal, each with the group's key |
| Journal.Members | screens/Journal.tsx:27-30 | the entries of one key in journal order, never more than the journal; MembersBelong, EntryInItsGroup and GroupsPartition state which entries they are |
| Journal.GroupEntriesByDate | screens/Journal.tsx:7-33 | the loop builds one group per key, in first-seen order, each holding the entries of its key in their order |
| Journal.GroupsPartition | screens/Journal.tsx:7-33 | the groups, taken together, hold every entry exactly as often as the list does |
| Journal.NewKeyGroup | screens/Journal.tsx:7-33 | an entry whose heading has not occurred yet opens a new group at the end, holding only that entry |
| Journal.FlattenStep | screens/Journal.tsx:7-33 | one more entry adds exactly one copy of it to the groups when its heading is among the listed ones, and none otherwise |
| Journal.EntryInItsGroup | screens/Journal.tsx:7-33 | every entry is in the group of its own key and in no other |
| Journal.MembersOfAbsentKey | screens/Journal.tsx:7-33 | a key no entry has groups nothing |
| Journal.StatusOf | screens/Journal.tsx:66-71 | loading, else pending while queued, else synced when it has a reflection, else no status |
| Journal.HasReflection | screens/Journal.tsx:69 | JavaScript truthiness of `entry.reflection`: present and not the empty string; StatusOf and SyncedEntryStatus use it |
| Journal.NewEntryIsPending | screens/Journal.tsx:66-71 | a new entry, online or offline, shows as pending |
| Journal.SyncedEntryStatus | screens/Journal.tsx:66-71 | a reflected entry shows as synced, unless the reflection text is empty |
| Journal.OfflineRequest | screens/Journal.tsx:50-53 | an offline request marks the entry as needing a reflection and not synced, so it is queued |
| Journal.OfflineRequestServedBySync | screens/Journal.tsx:50-53 | an offline request is answered by the next sync pass with the service's reflection |
| Journal.JournalScreen.HandleAddEntry | screens/Journal.tsx:43-47 | blank text adds nothing; otherwise the entry is added and the input cleared |
| Journal.PromptEnabled | screens/Journal.tsx:90 | the prompt button is enabled when no prompt is loading and there is a check-in; HandleGetPrompt requires it |
| Journal.JournalScreen.constructor | screens/Journal.tsx:38-39 | the screen starts with an empty draft and no prompt loading |
| Journal.JournalScreen.HandleGetReflection | screens/Journal.tsx:49-57 | offline: the entry is queued for a reflection; online: it is replaced by its reflected form |
| Journal.JournalScreen.HandleGetPrompt | screens/Journal.tsx:59-64 | the input becomes the prompt generated from the newest check-in, and loading ends |
| Community.Counts.Inc | screens/Community.tsx:44 | one reaction counter goes up by one; the others are kept |
| Community.ReactTo | screens/Community.tsx:37-47 | only posts with the id get the reaction counted; all others are kept |
| Community.ReactionTotals | screens/Community.tsx:37-47 | a reaction adds exactly as many to the feed's total for that reaction as there are posts with that id |
| Community.AddEnergy | screens/Community.tsx:61-67 | only the intention with the id gains one energy |
| Community.RippleId | screens/Community.tsx:64 | a ripple id starts with the intention id followed by a dash |
| Community.RipplesOf | screens/Community.tsx:175 | an intention shows the ripples whose ids start with its id |
| Community.RemoveRipple | screens/Community.tsx:175 | the finished ripple is removed and every other copy of every other ripple is kept |
| Community.RemoveRippleAppend | screens/Community.tsx:175 | the filter keeps the order of the ripples: removal distributes over concatenation |
| Community.NewRippleShown | screens/Community.tsx:61-67 | a new ripple shows under its intention |
| Community.DiffToSunset | screens/Community.tsx:76-80 | the time to the next 18:00 is under a day and lands exactly on 18:00 |
| Community.Countdown | screens/Community.tsx:83-86 | hours, minutes and seconds of the remaining time, with minutes and seconds below 60 |
| Community.RitualActive | screens/Community.tsx:81 | the ritual is on strictly between 0 and five minutes before sunset; CommunityScreen.Tick sets the flag to it |
| Community.CountdownReadsBack | screens/Community.tsx:83-86 | the hh:mm:ss text has eight characters and reads back as the whole seconds left |
| Community.CountdownText | screens/Community.tsx:83-86 | the three fields of Countdown padded to two digits and joined by colons; CountdownReadsBack shows the text is hh:mm:ss and reads back |
| Community.CommunityScreen.BeginPost | screens/Community.tsx:21-26 | blank text, or a post already under way, starts nothing; otherwise the text is captured and posting starts |
| Community.CommunityScreen.constructor | screens/Community.tsx:14-71 | the initial posts and intentions, no ripples, empty inputs, not posting, countdown "00:00:00", ritual off, 137 participants |
| Community.CommunityScreen.FinishPost | screens/Community.tsx:27-35 | the post goes first with no reactions; the input is cleared and posting ends |
| Community.CommunityScreen.HandleReaction | screens/Community.tsx:37-47 | the feed takes the reaction |
| Community.CommunityScreen.HandleAddIntention | screens/Community.tsx:49-59 | blank text adds nothing; otherwise the intention goes first, by "You" with energy 1, and the input is cleared |
| Community.CommunityScreen.HandleAddEnergy | screens/Community.tsx:61-67 | the intention gains energy and a new ripple is appended |
| Community.CommunityScreen.RippleEnded | screens/Community.tsx:175 | the finished ripple is removed |
| Community.CommunityScreen.Tick | screens/Community.tsx:73-89 | the countdown shows the time to sunset; the ritual is active within its window |
| Community.CommunityScreen.StepParticipants | screens/Community.tsx:91-96 | during the ritual the participant count moves by one, up or down |
| Progress.Reverse | screens/Progress.tsx:34 | the list in the opposite order |
| Progress.Heatmap | screens/Progress.tsx:23-36 | 90 cells for the 90 days ending today, oldest first, each marked exactly when there is a check-in that day |
| Progress.HeatmapConsecutive | screens/Progress.tsx:23-36 | the heatmap's days are consecutive and end today |
| Progress.ChartData | screens/Progress.tsx:56-63 | the 30 newest check-ins, oldest first |
| Progress.CorrelationData | screens/Progress.tsx:65-73 | one point per check-in but the oldest: its mood with the sleep of the check-in recorded before it |
| Progress.OccurrencesPositive | screens/Progress.tsx:81-85 | a word occurs exactly when its count is positive |
| Progress.WordFrequencies | screens/Progress.tsx:79-85 | the table holds exactly the tokens longer than two characters that are not stop words, each with its number of occurrences |
| Progress.Retained | screens/Progress.tsx:82 | a word is kept when it is longer than two characters and not a stop word |
| Progress.RetainedWords | screens/Progress.tsx:79-85 | the distinct retained tokens: the keys of WordFrequencies' table |
| Progress.MaxKey | screens/Progress.tsx:87 | a word with the largest count |
| Progress.TopWords | screens/Progress.tsx:87 | the min(30, size) entries with the largest counts, in non-increasing order, distinct, with their counts; no entry left out is larger |
| Progress.SelectLargest | screens/Progress.tsx:87 | the selection loop: min(30, size) entries picked, in non-increasing order, distinct, with their counts, and nothing left larger than what was picked |
| Progress.WordCloud | screens/Progress.tsx:75-88 | min(30, number of distinct retained words) distinct retained words of the text with their counts, largest first; no word left out is more frequent than one shown |
| Tools.ScaleFor | screens/Tools.tsx:21-25 | inhaling gives scale 1, exhaling 0.5, a hold keeps the previous scale |
| Tools.NextPhase | screens/Tools.tsx:32 | the next phase index stays in the pattern and wraps from the last to the first |
| Tools.PhaseAfterSteps | screens/Tools.tsx:31-33 | before the end of the pattern, k timeouts move k phases on |
| Tools.PhaseAfterAdd | screens/Tools.tsx:31-33 | timeouts compose additively |
| Tools.PhaseCycle | screens/Tools.tsx:31-33 | one timeout per phase returns to the starting phase |
| Tools.PhaseReached | screens/Tools.tsx:31-33 | every phase of the pattern is reached from any starting phase, after the number of timeouts that separates them cyclically |
| Tools.PhaseAfterWraps | screens/Tools.tsx:31-33 | from phase i, n - i timeouts lead back to the first phase |
| Tools.CountDown | screens/Tools.tsx:27-29 | a tick lowers the counter by one but never below 1 |
| Tools.CountAfterClosedForm | screens/Tools.tsx:17-29 | t ticks from a duration d leave max(d - t, 1) |
| Tools.BoxBreathingScales | screens/Tools.tsx:21-25 | box breathing is full while inhaling and the hold after, half while exhaling and the hold after |
| Tools.BreathingAnimation.EnterPhase | screens/Tools.tsx:15-25 | entering a phase resets the counter to its duration and sets its scale |
| Tools.BreathingAnimation.constructor | screens/Tools.tsx:9-25 | the animation starts on phase 0 with the first phase's duration and that phase's scale from 0.5, the first run of the phase effect |
| Tools.BreathingAnimation.Tick | screens/Tools.tsx:27-29 | the counter takes one countdown step |
| Tools.BreathingAnimation.PhaseTimeout | screens/Tools.tsx:31-39 | the index moves to the next phase and that phase is entered; with a one-phase pattern the effect does not re-run |
| Tools.HandlePlay | screens/Tools.tsx:73-83 | an active item toggles between play and pause; any other item becomes active and playing |
| Tools.IsActive | screens/Tools.tsx:74 | the active soundscape has the item's id; HandlePlay toggles exactly then |
| Tools.IsPlaying | screens/Tools.tsx:73 | the item is active and playback is on; HandlePlay shows it true after playing a new item |
| GuidedSession.FormatTime | screens/Session.tsx:134-138 | minutes and seconds separated by a colon |
| GuidedSession.FormatTimeReadsBack | screens/Session.tsx:134-138 | below 6000 seconds the clock is mm:ss and reads back as the seconds |
| GuidedSession.TimerStep | screens/Session.tsx:68-74 | one second less while more than one is left; 0 at the last second |
| GuidedSession.RemainingAfter | screens/Session.tsx:68-74 | from a full timer, t ticks leave 2400 - t seconds, then 0 |
| GuidedSession.StartTime | screens/Session.tsx:101 | the start is now minus the elapsed seconds, in milliseconds |
| GuidedSession.RecordOf | screens/Session.tsx:98-106 | the saved record carries the id, start and end, the conversation, and the service's title and summary |
| GuidedSession.SessionScreen.StartSession | screens/Session.tsx:86-94 | a chat exists, the session is active, and the conversation is the greeting |
| GuidedSession.SessionScreen.constructor | screens/Session.tsx:55-60 | no chat, no conversation, empty input, not loading, no session, 2400 seconds left |
| GuidedSession.SessionScreen.EndSession | screens/Session.tsx:96-114 | a conversation of more than one message is saved; then the session is inactive, empty and back to 2400 seconds |
| GuidedSession.SessionScreen.Tick | screens/Session.tsx:65-80 | one second less while more than one is left; at the last second the session ends, read with the current conversation (the source's timer reads a stale one and never saves, see Left out) |
| GuidedSession.SessionScreen.HandleSend | screens/Session.tsx:116-132 | blank input or no chat does nothing; otherwise one user message and one model message (reply or fallback) are appended |
| GuidedSession.SessionScreen.Exchange | screens/Session.tsx:118-131 | the typed text goes out as a user message, the answer comes back as a model message, the input is cleared and loading ends |
| Affirmations.FilterMembers | screens/Affirmations.tsx:53 | the favourites are exactly the favourite affirmations |
| Affirmations.SortIsFavoritesThenOthers | screens/Affirmations.tsx:65-71 | the stable sort gives the favourites in their order, then the others in theirs |
| Affirmations.Favorites | screens/Affirmations.tsx:53 | `filter(a => a.isFavorite)`, never longer than the list; FilterMembers states it holds exactly the favourites |
| Affirmations.Others | screens/Affirmations.tsx:65-71 | the non-favourites in their order, never longer than the list; FilterMembers states it holds exactly them |
| Affirmations.Insert | screens/Affirmations.tsx:65-71 | one insertion of the stable sort, passing only elements that sort strictly before; InsertOther and InsertFavorite place it |
| Affirmations.SortAffirmations | screens/Affirmations.tsx:65-71 | the stable sort with Compare; SortIsFavoritesThenOthers and SortIsPermutation state its result |
| Affirmations.SortIsPermutation | screens/Affirmations.tsx:65-71 | the sorted list holds each affirmation as often as before |
| Affirmations.SortFavoritesFirst | screens/Affirmations.tsx:67-68 | no non-favourite is shown before a favourite |
| Affirmations.Compare | screens/Affirmations.tsx:66-70 | negative exactly for a favourite before a non-favourite, positive for the reverse |
| Affirmations.Featured | screens/Affirmations.tsx:55-63 | none exactly when the list is empty, a member of the list otherwise, a favourite whenever one exists |
| Affirmations.RandomIndex | screens/Affirmations.tsx:57 | `Math.floor(r * n)` for `0 <= r < 1` is an index below n |
| Affirmations.FavoritesNonEmpty | screens/Affirmations.tsx:56 | there is a favourite exactly when some affirmation is one |
| Affirmations.HandleAdd | screens/Affirmations.tsx:47-51 | blank text adds nothing and keeps the input; otherwise the text is added and the input cleared |
| GeminiService.GetJournalReflection | services/geminiService.ts:17-31 | the service's text, or the fixed fallback when the call fails |
| GeminiService.InsightDataOf | services/geminiService.ts:69-70 | the insight request carries each check-in's three ratings and the first 100 characters of each entry |
| GeminiService.GetAIInsight | services/geminiService.ts:65-81 | the service's insight, or the fixed fallback when the call fails |
| GeminiService.GetJournalPrompt | services/geminiService.ts:83-97 | a prompt generated from the newest check-in's mood and energy, or the fixed fallback |
| GeminiService.HistorySplitsIntoMessages | services/geminiService.ts:43 | the history text splits at newlines back into one "role: text" line per message |
| GeminiService.HistoryText | services/geminiService.ts:43 | the "role: text" lines of the history joined by newlines; HistorySplitsIntoMessages splits it back |
| GeminiService.JoinSplits | services/geminiService.ts:43 | joining lines free of the separator and splitting at it gives the lines back |
| GeminiService.IndexOf | services/geminiService.ts:51-52 | the leftmost occurrence of the label, or none when there is none |
| GeminiService.RestOfLine | services/geminiService.ts:51-52 | `(.*)`: the longest prefix without a line terminator |
| GeminiService.GetSessionSummaryAndTitle | services/geminiService.ts:42-63 | a failed call gives the fixed error pair; otherwise the title and summary are parsed from the answer |
| GeminiService.ExtractLine | services/geminiService.ts:51-55 | the trimmed rest of the line after the first occurrence of the label, or the fallback; TitleOfAnswer reads a one-line title back from the requested format |
| GeminiService.ParseSummaryAnswer | services/geminiService.ts:50-57 | the title and summary extracted with their defaults; AnswerRoundTrip reads back the requested format |
| GeminiService.MissingLabelsFallBack | services/geminiService.ts:54-55 | a missing "Title: " gives the default title and a missing "Summary: " the default summary |
| GeminiService.AnswerRoundTrip | services/geminiService.ts:51-55 | an answer in the requested "Title: …\nSummary: …" form parses back to its title and summary |

## Left out

- Persistence in local storage, haptic feedback, the audio element, service-worker sync registration and the `online` event wiring are left out. `navigator.onLine` is a boolean parameter.
- Timers are explicit methods (`Tick`, `PhaseTimeout`, `StepParticipants`) that the caller invokes. Interval scheduling, clean-up and React render batching are not modelled.
- Stale closures are not modelled. Every handler reads the current state.
- GuidedSession.SessionScreen.Tick: at the last second the model ends the session with the current conversation, so a conversation of more than one message is saved. In the source the interval is created when `sessionActive` becomes true, and the `endSession` it calls is the one of that render, whose `conversation` is still `[]` (the greeting arrives later). So a session that runs out its 40 minutes is never saved as written; only the End Session button saves it.
- `Date.now()` ids, ISO date strings and locale month labels are parameters or day numbers (`Journal.Calendar`). The source mixes UTC day keys (`toISOString`) with local-day comparisons (`isSameDay`); that difference is not modelled.
- Floating point: the bar widths are `real`. The word-cloud font size and opacity are left out.
- UserDocument.SyncAllPointwise, SyncedClosedForm, SyncConverges, SyncIdempotent, OfflineEntryStaysPending and SyncDuringOutage, and Journal.OfflineRequestServedBySync, require unique entry ids. Ids come from the clock, so two entries with the same id are not considered.
- Randomness (`Math.random`) is a parameter: a coin for the participant walk and the value `r` for the featured affirmation.
- The word cloud starts from the token sequence. Joining the entries, lower-casing and the `\w+` tokenizer are not modelled.
- Progress.WordFrequencies: counts every retained token, including `constructor` and `__proto__`. The source's table is a plain object, so for `constructor` the read returns the inherited `Object.prototype.constructor` and the stored value becomes a string, and for `__proto__` no entry is created. The model does not capture these two prototype names.
- UserDocument.RunDailyInsight: the request and the stored answer are one step. In the source `lastInsightDate` is set only when the answer arrives, and the effect re-runs when the check-ins or the journal change while the request is pending, so two requests can start and both answers are stored on the same day. InsightOncePerDay and UserProvider.RunDailyInsight hold for the one-step model only.
- Progress.TopWords: the order among words with equal counts is not stated. The source leaves it to the engine's key order.
- Progress.WordCloud: inherits both gaps above. The order among words with equal counts is not stated, and the tokens `constructor` and `__proto__` are counted like any other word.
- The text of the prompts sent to the model, `getMonthlyReport`, and the chat client (`createPsychoanalysisSession`, `sendMessage`) are not modelled. Their answers are parameters.
- The affirmation commands of the provider (`addAffirmation`, `toggleAffirmationFavorite`, `deleteAffirmation`) and the `Affirmation` type are missing from the source. Only the screen's own logic is modelled.
- The step detail texts of the journeys screen (meditation and breathing titles) and the achievement catalog's names and descriptions are display text and are not modelled.
- String lengths count characters, not UTF-16 code units. White space for `trim` is the JavaScript set, without further normalisation.
- Community.RipplesOf: a ripple of intention "12" also shows under intention "1", because the filter only checks the prefix. The model keeps this behaviour.
- Journeys.ProgressPercent: rounds the exact ratio and does not model binary floating-point rounding of `step / n * 100`.
- Tools.BreathingAnimation: the exit fade and the `onComplete` delay are display only.
- GuidedSession.SessionScreen.StartSession: a failed greeting leaves the screen loading, because the source does not catch that error. The chat is reduced to whether it exists.
