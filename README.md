# Steam Priority Picker, modelled in Dafny

Steam Priority Picker ranks a user's Steam library so that short, well-reviewed games
come first. This project models its core logic and proves properties of it, in three
layers:

- **The browser front end** (`web/src`):
  - the game-list pipeline of `useGames` (search, inclusive ranges, played status, four sort keys);
  - the snapshot cache that `useGames` reads at mount, in its load effect and in `forceRefresh`;
  - the filter record of `useFilters` and the preset, reset and counting logic of `FilterPanel`;
  - the played-games set of `usePlayed` and the prefix pagination of `useInfiniteScroll`;
  - the playtime badge of `GameCard`, the translation lookup and language toggle, and the uptime formatter and its gating;
  - the pet state machine of the mascot: decay, feeding, death, moods, evolution, the Konami code and the triple click.
- **The backend** (`backend/app`):
  - the game catalog service and the games routes;
  - the per-user played-games relation and the preferences row;
  - the bearer-token and callback logic of the auth routes;
  - OpenID Authentication 2.0 login and verification;
  - the session table and the game-name normaliser;
  - the store lookups with retries and delisted-game bookkeeping;
  - the user-to-platform migration.
- **The command-line tool**:
  - `main.py`, the picker itself;
  - its file cache (`cache.py`) and review score (`review_api.py`);
  - the export of the cache to the web catalog (`scripts/cache_to_json.py`);
  - the release-version bump (`increment_version.py`).

Effects the model cannot see become inputs:
- what a remote service answered (the Steam Web and Store APIs, HowLongToBeat, the OpenID provider);
- what the browser's storage or the cache directory held;
- the current time;
- whether a database commit raised.

Browser storage, cache directories and database tables are maps or sequences of rows. A commit is all or nothing. Stateful code is modelled imperatively:
- a hook's state cells and a service's catalog are classes whose methods change their fields;
- the loops of the source are `while` loops with invariants.

Each such method is proved against a specification function. The lemmas beside that function state what the source promises.

One module per source file. `Common` holds shared sequence and string helpers; `Json` is a small JSON value type.

## Model

| member | source | states |
|---|---|---|
| Filters.Defaults | web/src/hooks/useFilters.js:4-13 | playtime and review bounds start at [0, ∞], score bounds at [0, 100], sort 'score_desc', empty search, played status 'all', unknown durations shown |
| Filters.FilterStore.constructor | web/src/hooks/useFilters.js:4-13 | the ten state cells start at the defaults |
| Filters.FilterStore.SetPlaytimeMin | web/src/hooks/useFilters.js:4 | replaces `playtimeMin` and leaves the other nine fields as they were |
| Filters.FilterStore.SetPlaytimeMax | web/src/hooks/useFilters.js:5 | replaces `playtimeMax` and leaves the other nine fields as they were |
| Filters.FilterStore.SetScoreMin | web/src/hooks/useFilters.js:6 | replaces `scoreMin` and leaves the other nine fields as they were |
| Filters.FilterStore.SetScoreMax | web/src/hooks/useFilters.js:7 | replaces `scoreMax` and leaves the other nine fields as they were |
| Filters.FilterStore.SetReviewsMin | web/src/hooks/useFilters.js:8 | replaces `reviewsMin` and leaves the other nine fields as they were |
| Filters.FilterStore.SetReviewsMax | web/src/hooks/useFilters.js:9 | replaces `reviewsMax` and leaves the other nine fields as they were |
| Filters.FilterStore.SetSortBy | web/src/hooks/useFilters.js:10 | replaces `sortBy` and leaves the other nine fields as they were |
| Filters.FilterStore.SetSearchQuery | web/src/hooks/useFilters.js:11 | replaces `searchQuery` and leaves the other nine fields as they were |
| Filters.FilterStore.SetShowPlayed | web/src/hooks/useFilters.js:12 | replaces `showPlayed` and leaves the other nine fields as they were |
| Filters.FilterStore.SetShowUnknown | web/src/hooks/useFilters.js:13 | replaces `showUnknown` and leaves the other nine fields as they were |
| Filters.ActiveFilterCount | web/src/components/FilterPanel.jsx:22-27 | between 0 and 4; 0 exactly when playtime, score, reviews and played status are all at their defaults, 4 exactly when none is |
| Filters.DefaultsHaveNoActiveFilter | web/src/components/FilterPanel.jsx:22-27 | the defaults count 0, and sort key, search text and the unknown-duration flag are never counted |
| Filters.PlaytimeToggled | web/src/components/FilterPanel.jsx:29-39 | clicking the checked preset resets playtime to [0, ∞], any other click selects exactly that preset; no other field changes |
| Filters.ScoreToggled | web/src/components/FilterPanel.jsx:41-51 | clicking the checked preset resets score to [0, 100], any other click selects exactly that preset; no other field changes |
| Filters.HandlePlaytimeToggle | web/src/components/FilterPanel.jsx:29-39 | the two setter calls leave the store at the toggled configuration |
| Filters.HandleScoreToggle | web/src/components/FilterPanel.jsx:41-51 | the two setter calls leave the store at the toggled configuration |
| Filters.HandleReset | web/src/components/FilterPanel.jsx:192-202 | every field returns to its default except `showUnknown`, which keeps its value; the active count is then 0 |
| Filters.ToggleTwiceFromDefaults | web/src/components/FilterPanel.jsx:29-51 | clicking the same preset twice from the defaults gives the defaults back |
| Filters.AtMostOnePresetChecked | web/src/components/FilterPanel.jsx:2-13 | the presets of a group are distinct (min, max) pairs, so at most one checkbox per group is checked |
| Filters.ToggleSelectsExactlyOne | web/src/components/FilterPanel.jsx:29-39 | after selecting an unchecked playtime preset it is the only one checked |
| Filters.ReviewsMaxSliderValue | web/src/components/FilterPanel.jsx:126 | the reviews-maximum slider shows ∞ as 500000 and a finite bound as itself |
| GameList.SearchStage | web/src/hooks/useGames.js:182-186 | an empty query keeps the list; otherwise it keeps exactly the games whose lower-cased name contains the lower-cased query, and only games it had |
| GameList.PlaytimeStage | web/src/hooks/useGames.js:189-194 | keeps exactly the games whose playtime lies in the inclusive playtime range, and only games it had |
| GameList.ScoreStage | web/src/hooks/useGames.js:197-202 | keeps exactly the games whose score lies in the inclusive score range, and only games it had |
| GameList.ReviewsStage | web/src/hooks/useGames.js:205-210 | keeps exactly the games whose review count lies in the inclusive reviews range, and only games it had |
| GameList.PlayedStage | web/src/hooks/useGames.js:213-217 | 'played' keeps only games in the played set, 'unplayed' only games outside it, any other value keeps the list; every game meeting the selector is kept |
| GameList.KeyOrdersArePreorders | web/src/hooks/useGames.js:220-228 | the four comparators order games by a total preorder (ascending and descending playtime and score) |
| GameList.SortStage | web/src/hooks/useGames.js:220-228 | the result is a permutation of the filtered list, ordered by the selected key and direction; an unknown sort key leaves the order unchanged |
| GameList.DerivedMembership | web/src/hooks/useGames.js:178-230 | a game is shown exactly when it is in the library and passes every filter condition; the shown list is a sub-multiset of the library |
| GameList.StageMember | web/src/hooks/useGames.js:183-216 | a stage that keeps what passes its test, and only what it had, contains a game exactly when the input has it and it passes |
| GameList.DerivedWithinBounds | web/src/hooks/useGames.js:189-210 | every shown game lies within all three inclusive ranges |
| GameList.SearchStageIsFilter | web/src/hooks/useGames.js:182-186 | the search stage is an order-preserving filter by the search test |
| GameList.RangeStagesAreFilters | web/src/hooks/useGames.js:189-210 | each range stage is an order-preserving filter by its range test |
| GameList.PlayedStageIsFilter | web/src/hooks/useGames.js:213-217 | the played stage is an order-preserving filter by the selector's test |
| GameList.FilteredIsOneFilter | web/src/hooks/useGames.js:179-217 | the chain of five stages equals one filter of the library by the conjunction of all conditions |
| GameList.DeriveIsFilterThenSort | web/src/hooks/useGames.js:178-230 | the derived list is that one filter followed by the sort |
| GameList.DefaultsShowSaneGames | web/src/hooks/useFilters.js:4-13 | under the initial filters every game with non-negative playtime and reviews and a score in 0..100 is shown, sorted by descending score |
| GameList.UnknownSortKeepsLibraryOrder | web/src/hooks/useGames.js:220-230 | with an unrecognised sort key the shown games keep library order |
| GamesCache.Classify | web/src/hooks/useGames.js:113-125 | a stored snapshot is served exactly when it is younger than an hour and written under the same token; a snapshot of another token is foreign whatever its age; a same-token snapshot an hour old or older is stale; no key is missing |
| GamesCache.ErrorMessage | web/src/hooks/useGames.js:146-148 | an error status gives "API error: {status} - {detail}", with "Unknown error" when the reply has no detail or an empty one; a transport failure keeps its own message |
| GamesCache.GamesHook.constructor | web/src/hooks/useGames.js:6-59 | a signed-in hook with a served snapshot starts from its list and totals, otherwise from an empty list and zero totals; a foreign snapshot is removed from storage |
| GamesCache.GamesHook.Accept | web/src/hooks/useGames.js:151-163 | a successful reply sets the list and totals (a missing database total is 0) and writes a snapshot stamped with the time and token |
| GamesCache.GamesHook.LoadEffect | web/src/hooks/useGames.js:102-176 | signed out empties the list without fetching; a served snapshot changes nothing; otherwise a foreign snapshot is dropped and the reply is accepted, or on failure the list and total are emptied and the error message stored; loading ends false |
| GamesCache.GamesHook.ForceRefresh | web/src/hooks/useGames.js:62-99 | the snapshot is always removed first; signed out stops there; a successful reply is accepted and cached; a failure stores the error and keeps the list shown |
| GamesCache.MountWithFreshSnapshot | web/src/hooks/useGames.js:6-27 | mounting with a fresh snapshot of the same token shows the snapshot's list and leaves storage untouched, whatever the network would say |
| GamesCache.MountWithForeignSnapshot | web/src/hooks/useGames.js:14-18 | mounting under another token drops the snapshot; the first effect then caches the fetched list, or leaves no snapshot and an error |
| Mascot.ClickMood | web/src/components/MascotTamagotchi.jsx:76-82 | more than 20 clicks is sleepy, 16-20 excited, 11-15 sad, 6-10 neutral, otherwise happy |
| Mascot.CountAtMost | web/src/components/MascotTamagotchi.jsx:104-105 | the number of stats at or below the limit is at most 3; it is 0 exactly when all three exceed the limit and 3 exactly when none does |
| Mascot.StatMood | web/src/components/MascotTamagotchi.jsx:102-111 | very sad exactly when two or more stats are at most 20; sad when one is, or when none is but two or more are at most 50; neutral when exactly one is at most 50 and none at most 20; happy exactly when all three exceed 50 |
| Mascot.StatMoodIsMonotone | web/src/components/MascotTamagotchi.jsx:102-111 | raising any stat never makes the stats mood gloomier |
| Mascot.Decayed | web/src/components/MascotTamagotchi.jsx:87-89 | a decayed stat is the old value minus the amount, floored at 0 |
| Mascot.Raised | web/src/components/MascotTamagotchi.jsx:194-195 | a raised stat is the old value plus the amount, capped at 100 |
| Mascot.EvolutionAsWritten | web/src/components/MascotTamagotchi.jsx:123-126 | as written, an alive time above 300 seconds always sets level 1 and otherwise the level is kept |
| Mascot.EvolutionAsWrittenNeverReachesTwo | web/src/components/MascotTamagotchi.jsx:123-126 | starting below level 2, the effect as written never yields level 2, even at 601 seconds |
| Mascot.LevelFor | web/src/components/MascotTamagotchi.jsx:122-126 | the intended level: 2 exactly above 600 seconds, 1 exactly in 301..600, else 0 |
| Mascot.Evolution | web/src/components/MascotTamagotchi.jsx:123-126 | the corrected effect: above 300 seconds the level is the level earned, otherwise the level is kept |
| Mascot.EvolutionTracksAliveTime | web/src/components/MascotTamagotchi.jsx:114-126 | counting up one second at a time, the corrected effect keeps the level equal to the level earned |
| Mascot.KonamiStepAsWritten | web/src/components/MascotTamagotchi.jsx:153-161 | as written, the index advances on the expected key, fires and resets after the tenth, and drops to 0 on any other key without re-testing that key |
| Mascot.RunAsWritten | web/src/components/MascotTamagotchi.jsx:149-161 | one fire flag per key pressed |
| Mascot.KonamiAsWrittenMissesCode | web/src/components/MascotTamagotchi.jsx:145-162 | a stray "ArrowUp" followed by the full code never fires the detector as written |
| Mascot.OnlyTwoUps | web/src/components/MascotTamagotchi.jsx:145 | the code opens with exactly two "ArrowUp" keys and has no other |
| Mascot.StrayUpResets | web/src/components/MascotTamagotchi.jsx:153-161 | a third "ArrowUp" in a row sends the index as written back to 0 |
| Mascot.AllMismatchStayAtZero | web/src/components/MascotTamagotchi.jsx:153-161 | keys that never match the code's first key never fire the detector as written |
| Mascot.Last10 | web/src/components/MascotTamagotchi.jsx:150-151 | the key window keeps the last ten keys pressed |
| Mascot.DetectStep | web/src/components/MascotTamagotchi.jsx:149-158 | the corrected detector fires exactly when the last ten keys are the code, and then starts a fresh window |
| Mascot.Run | web/src/components/MascotTamagotchi.jsx:149-158 | one fire flag per key pressed |
| Mascot.Last10OfLast10 | web/src/components/MascotTamagotchi.jsx:150-151 | trimming the window before pushing a key changes nothing about the next window |
| Mascot.KonamiLastKeyIsUnique | web/src/components/MascotTamagotchi.jsx:145 | the code's last key "a" occurs nowhere earlier in it |
| Mascot.StepOnCode | web/src/components/MascotTamagotchi.jsx:149-158 | each key of the code typed in order leaves the detector quiet until the last, which fires |
| Mascot.NoHitFirst | web/src/components/MascotTamagotchi.jsx:149-158 | prefixing a quiet key to a run that fires only on its last key keeps that shape |
| Mascot.RecognisedFrom | web/src/components/MascotTamagotchi.jsx:149-158 | from any point inside the code, the remaining keys fire exactly once, on the last |
| Mascot.CodeAlwaysRecognised | web/src/components/MascotTamagotchi.jsx:144-162 | whatever was typed before, typing the code fires the corrected detector on its last key and not before |
| Mascot.Pet.constructor | web/src/components/MascotTamagotchi.jsx:58-69 | full stats, happy, alive, no alive time, level 0, no clicks, not dancing, hidden, empty key window |
| Mascot.Pet.StatsChanged | web/src/components/MascotTamagotchi.jsx:94-111 | the pet dies when all three stats are exhausted, and a pet alive before the change takes the mood of its stats |
| Mascot.Pet.DecayTick | web/src/components/MascotTamagotchi.jsx:85-92 | hunger drops by 5 and cleanliness and boredom by 3, floored at 0; death and the stats mood follow; the class invariant holds |
| Mascot.Pet.Feed | web/src/components/MascotTamagotchi.jsx:193-196 | hunger rises by 20 and boredom by 10, capped at 100; the pet stays alive; when a stat really changed it takes its stats mood, otherwise (both already full) no effect runs and the mood is kept |
| Mascot.Pet.Clean | web/src/components/MascotTamagotchi.jsx:198-200 | cleanliness becomes 100; the pet stays alive; it takes its stats mood when cleanliness was below 100 and keeps its mood otherwise |
| Mascot.Pet.Play | web/src/components/MascotTamagotchi.jsx:202-204 | boredom rises by 20, capped at 100; the pet stays alive; it takes its stats mood when boredom changed and keeps its mood when it was already full |
| Mascot.Pet.Revive | web/src/components/MascotTamagotchi.jsx:225 | a dead pet gets full stats, alive time and level 0, is alive and happy |
| Mascot.Pet.AliveTick | web/src/components/MascotTamagotchi.jsx:113-126 | the alive time grows by one second and the level is the one it earned |
| Mascot.Pet.Click | web/src/components/MascotTamagotchi.jsx:168-186 | the click count grows by one and sets the click mood; the third click in a row starts the dance and restarts the count |
| Mascot.Pet.ClickTimeout | web/src/components/MascotTamagotchi.jsx:183-185 | the pending click count returns to 0 |
| Mascot.Pet.DoubleClick | web/src/components/MascotTamagotchi.jsx:188-191 | the pet becomes excited; the timer that follows changes nothing |
| Mascot.Pet.KeyDown | web/src/components/MascotTamagotchi.jsx:149-158 | the key window and the fire flag follow the corrected detector, and the pet becomes visible once the code is recognised |
| Played.TrimStart | web/src/hooks/usePlayed.js:11-14 | `parseInt` first skips white space and line terminators: the result is a suffix of the text that does not start with one |
| Played.DigitRun | web/src/hooks/usePlayed.js:11-14 | the longest leading run of digits in the radix: all of it are digits and the next character is not |
| Played.ParseIntText | web/src/hooks/usePlayed.js:11-14 | `parseInt` of a text holding no decimal digit at all is `NaN` |
| Played.Trunc | web/src/hooks/usePlayed.js:14 | a number written in plain decimal reads as its truncation toward zero |
| Played.LeadingDigit | web/src/hooks/usePlayed.js:14 | the first significant digit of a positive number: a digit from 1 to 9, the integer part for a number in [1, 10) |
| Played.LeadingDigitScale | web/src/hooks/usePlayed.js:14 | multiplying by ten keeps the first significant digit |
| Played.LeadingDigitScaleN | web/src/hooks/usePlayed.js:14 | multiplying by any power of ten keeps the first significant digit |
| Played.NumberParseInt | web/src/hooks/usePlayed.js:14 | `parseInt` of a number: its truncation when `String` prints it in plain decimal (zero, or magnitude in [10^-6, 10^21)); otherwise the signed leading digit, one to nine in magnitude |
| Played.IntegerReadsBack | web/src/hooks/usePlayed.js:14 | an integer below 10^21 in magnitude reads back as itself |
| Played.ExponentFormReadsLeadingDigit | web/src/hooks/usePlayed.js:14 | 10^21 (printed "1e+21") reads as 1 and 5 * 10^-7 (printed "5e-7") as 5 |
| Played.ParseIntOf | web/src/hooks/usePlayed.js:11-14 | a number reads as `NumberParseInt` says (its truncation when printed in plain decimal); `null`, booleans and objects read as `NaN` |
| Played.ValidIds | web/src/hooks/usePlayed.js:11-14 | the entries kept by the filter, each replaced by `parseInt(entry)`: exactly the values `parseInt` reads from the entries, no more entries than stored |
| Played.InitialIds | web/src/hooks/usePlayed.js:4-20 | a missing or empty entry, an unparsable one or a non-array gives the empty set; an array gives exactly the ids `parseInt` reads from it, without duplicates |
| Played.Serialize | web/src/hooks/usePlayed.js:24 | `JSON.stringify(Array.from(played))`: an array holding the ids, in order |
| Played.ReloadRestoresSet | web/src/hooks/usePlayed.js:4-25 | what the effect writes the initialiser reads back as the same set in the same order, for ids below 10^21 in magnitude |
| Played.HugeIdReadsBackAsDigit | web/src/hooks/usePlayed.js:4-25 | the id 10^21 is written as "1e+21" and reads back as the id 1 |
| Played.Toggled | web/src/hooks/usePlayed.js:27-37 | the toggled id's membership flips and every other id keeps its membership; the set stays duplicate-free |
| Played.ToggleTwice | web/src/hooks/usePlayed.js:27-37 | toggling an id twice gives the same set back, and the same order when the id was absent |
| Played.PlayedStore.constructor | web/src/hooks/usePlayed.js:4-25 | the set is read from storage, an unparsable entry is removed, and the effect then writes the set back under 'playedGames' |
| Played.PlayedStore.Persist | web/src/hooks/usePlayed.js:23-25 | the effect writes the whole set, as an array, under 'playedGames' and changes nothing else |
| Played.PlayedStore.TogglePlayed | web/src/hooks/usePlayed.js:23-37 | the set becomes the toggled set and storage holds it afterwards |
| Played.PlayedStore.IsPlayed | web/src/hooks/usePlayed.js:39 | set membership |
| Played.PlayedStore.PlayedCount | web/src/hooks/usePlayed.js:41 | the number of distinct ids in the set |
| GameCard.PlaytimeBadge | web/src/components/GameCard.jsx:2-7 | under 5 hours gives '< 5 hrs', [5,10) '5-10 hrs', [10,20) '10-20 hrs', 20 and more '20+ hrs', each with its fixed colour classes |
| GameCard.BadgeIsMonotone | web/src/components/GameCard.jsx:2-7 | every input gets one of the four badges, and more hours never give an earlier bucket |
| GameCard.TextDeterminesColour | web/src/components/GameCard.jsx:3-6 | two inputs with the same badge text get the same colour classes |
| Language.KeysOf | web/src/context/LanguageContext.jsx:6-144 | the key list of a translation table, entry by entry |
| Language.Lookup | web/src/context/LanguageContext.jsx:160 | an entry is found exactly when its key is in the table, and is never empty when no value of the table is |
| Language.FirstGroupsMatch | web/src/context/LanguageContext.jsx:8-21 | the header and authentication groups list the same keys in the same order in Spanish and English, with no empty text |
| Language.RangeGroupsMatch | web/src/context/LanguageContext.jsx:23-34 | the playtime and score filter groups agree in both languages |
| Language.MiddleGroupsMatch | web/src/context/LanguageContext.jsx:36-53 | the reviews, sort, played-status and search/reset groups agree in both languages |
| Language.LastGroupsMatch | web/src/context/LanguageContext.jsx:55-74 | the games, links and Ko-fi groups agree in both languages |
| Language.Concatenated | web/src/context/LanguageContext.jsx:6-144 | joining groups that agree gives tables that agree |
| Language.TablesAgree | web/src/context/LanguageContext.jsx:6-144 | the Spanish and English tables list the same keys in the same order and hold no empty text |
| Language.Translate | web/src/context/LanguageContext.jsx:160 | the current language's text when present and non-empty, else the Spanish text when present and non-empty, else the key itself |
| Language.KnownKeysNeverFallBack | web/src/context/LanguageContext.jsx:160 | in Spanish or English, every known key is translated into the chosen language itself |
| Language.UnknownKeyIsEchoed | web/src/context/LanguageContext.jsx:160 | an unknown key comes back unchanged in every language |
| Language.Toggled | web/src/context/LanguageContext.jsx:162-164 | toggling yields Spanish or English, and changes a supported language to the other one |
| Language.ToggleTwice | web/src/context/LanguageContext.jsx:162-164 | toggling twice restores a supported language |
| Language.InitialLanguage | web/src/context/LanguageContext.jsx:147-154 | a non-empty stored language wins; otherwise Spanish exactly when the browser language starts with "es", else English |
| Language.LanguageState.constructor | web/src/context/LanguageContext.jsx:147-158 | the provider starts in the initial language and its effect writes that language to storage |
| Language.LanguageState.Toggle | web/src/context/LanguageContext.jsx:156-164 | the language toggles and storage mirrors it |
| InfiniteScroll.Take | web/src/hooks/useInfiniteScroll.js:4 | `items.slice(0, count)` is the prefix of length min(count, \|items\|) |
| InfiniteScroll.ShownAfterLoads | web/src/hooks/useInfiniteScroll.js:9-21 | after the reset and `n` calls of `loadMore` the first (n+1)·k items are shown (or all of them) |
| InfiniteScroll.EventuallyAllShown | web/src/hooks/useInfiniteScroll.js:9-21 | with a positive page size, enough calls of `loadMore` show the whole list |
| InfiniteScroll.Pager.constructor | web/src/hooks/useInfiniteScroll.js:4-5 | the first page is shown and `hasMore` says whether the list is longer than a page; `displayed` is a prefix of `items` |
| InfiniteScroll.Pager.Reset | web/src/hooks/useInfiniteScroll.js:9-12 | a new list shows its first page, with `hasMore` iff it is longer than a page |
| InfiniteScroll.Pager.LoadMore | web/src/hooks/useInfiniteScroll.js:15-21 | the shown prefix grows to min(\|prev\| + k, \|items\|) items, keeps the previous ones, grows by at most k, changes nothing once all are shown, and `hasMore` iff some remain |
| InfiniteScroll.Pager.OnIntersection | web/src/hooks/useInfiniteScroll.js:26-30 | the observer loads one more page only when the target is visible and `hasMore` holds; otherwise nothing changes |
| Uptime.WebUptime | web/src/hooks/useBackendUptime.js:71-85 | with seconds, minutes and hours the successive floor divisions of the elapsed milliseconds: "{h}h {m mod 60}m" from one hour on, "{m}m {s mod 60}s" from one minute on, else "{s}s" |
| Uptime.UnitsRecompose | web/src/hooks/useBackendUptime.js:74-81 | the secondary units printed are below 60, and hours, the minutes below an hour, the seconds below a minute and the leftover milliseconds add back up to the elapsed time |
| Uptime.FromHealth | web/src/hooks/useBackendUptime.js:52-55 | a missing or empty `uptime_formatted` becomes "Unknown" and a missing `uptime_seconds` becomes 0; the stored text is never empty |
| Uptime.UptimeMonitor.constructor | web/src/hooks/useBackendUptime.js:7-8 | a new monitor is not admin and holds no uptime |
| Uptime.UptimeMonitor.RefreshUptime | web/src/hooks/useBackendUptime.js:39-60 | without a token or admin rights the uptime is cleared; an ok reply stores its record; a failed request keeps the previous one; the uptime is only held for a signed-in administrator |
| Uptime.UptimeMonitor.TokenChanged | web/src/hooks/useBackendUptime.js:13-43 | signing out clears admin and uptime; an ok admin reply sets `isAdmin` to its flag, a non-ok one keeps it, a thrown one clears it; then the uptime effect runs with the new state |
| Uptime.UptimeMonitor.ShownBackendUptime | web/src/hooks/useBackendUptime.js:88 | `uptime?.backend \|\| null`: the backend text exactly when an uptime with a non-empty text is held |
| Uptime.ShownWhenHeld | web/src/hooks/useBackendUptime.js:52-55 | a record built from a health reply is always shown |
| GameService.Ids | backend/app/services/game_service.py:48 | the set of app ids holds exactly the ids of the records (absent ids included) |
| GameService.Paginate | backend/app/services/game_service.py:69 | with a positive limit the page is the slice from the offset of at most that many items; a zero or absent limit runs to the end; an offset past the end gives an empty page |
| GameService.QueryStage | backend/app/services/game_service.py:86-88 | keeps exactly the games whose lower-cased name contains the lower-cased query; no or an empty query keeps every game |
| GameService.PlaytimeStage | backend/app/services/game_service.py:91 | keeps exactly the games whose playtime (0 when missing) lies in the inclusive range |
| GameService.ScoreStage | backend/app/services/game_service.py:94 | keeps exactly the games whose score (0 when missing) lies in the inclusive range |
| GameService.FirstWithId | backend/app/services/game_service.py:100-105 | none exactly when no record has the id; otherwise a record of the catalog with that id |
| GameService.Catalog.constructor | backend/app/services/game_service.py:8-39 | a readable file gives its list and remembers its path; a missing or unreadable file gives an empty catalog and no path |
| GameService.Catalog.AddGames | backend/app/services/game_service.py:41-64 | with no input or no file nothing changes and the answer is false; otherwise the records whose id is new are appended in order, and the answer is true exactly when something was appended and the write succeeded |
| GameService.Catalog.GetAllGames | backend/app/services/game_service.py:66-70 | one page of the catalog, and the size of the whole catalog |
| GameService.Catalog.Matching | backend/app/services/game_service.py:83-94 | a game matches exactly when it is in the catalog, its name contains the query and its playtime and score are within the bounds |
| GameService.Catalog.SearchGames | backend/app/services/game_service.py:72-98 | one page of the matching games, and how many match in all |
| GameService.Catalog.GetGameById | backend/app/services/game_service.py:100-105 | the scan returns the first record with the id, or none |
| GameService.SearchKeepsCatalogOrder | backend/app/services/game_service.py:83-94 | the three stages together are one order-preserving filter by all conditions: the result is a subsequence of the catalog |
| GameService.RangeStagesAreFilters | backend/app/services/game_service.py:91-94 | each range stage is a filter by its own condition |
| GameService.QueryStageIsFilter | backend/app/services/game_service.py:86-88 | the query stage is a filter by the query test |
| GameService.LookupFindsExactly | backend/app/services/game_service.py:100-105 | a lookup succeeds exactly when some record carries the id, and the record found is in the catalog |
| GameService.AddIsIdempotent | backend/app/services/game_service.py:48-54 | after one add, adding the same records again appends nothing |
| GamesRoutes.GetGames | backend/app/routes/games.py:9-19 | a limit outside 1..100 or a negative offset is refused with 422; otherwise the total is the catalog size and the page holds at most the limit, taken from the offset, and is empty past the end |
| GamesRoutes.GetGame | backend/app/routes/games.py:22-29 | the game is returned exactly when the catalog has a record with that id, and it carries the id; otherwise 404 "Game with app_id {id} not found" |
| GamesRoutes.Search | backend/app/routes/games.py:32-55 | parameters breaking their declared bounds are refused with 422; otherwise the total counts every match and the page is the matching games from the offset, at most the limit of them (empty past the end), each game in the catalog and matching every condition |
| GamesRoutes.MinOf | backend/app/routes/games.py:73 | the minimum is an element no larger than any other |
| GamesRoutes.MaxOf | backend/app/routes/games.py:74 | the maximum is an element no smaller than any other |
| GamesRoutes.Playtimes | backend/app/routes/games.py:68 | the playtimes of the games, 0 where missing, position by position |
| GamesRoutes.Scores | backend/app/routes/games.py:69 | the scores of the games, 0 where missing, position by position |
| GamesRoutes.GetFilters | backend/app/routes/games.py:58-81 | an empty catalog gives playtime 0..0 and score 0..100; otherwise each range is the least and greatest value over the catalog, so it holds every game's value and both ends are attained; the count is the catalog size |
| PlayedGames.AppIdsOf | backend/app/routes/played_games.py:27-32 | an id is listed exactly when the table has a row for the user and that id; never more ids than rows |
| PlayedGames.WithoutUser | backend/app/routes/played_games.py:58-60 | deleting the user's rows keeps exactly the other users' rows, leaves every other user's ids unchanged and leaves the user none |
| PlayedGames.RowsFor | backend/app/routes/played_games.py:64-70 | one row for the user per requested id, in request order |
| PlayedGames.AppIdsOfAppend | backend/app/routes/played_games.py:27-32 | the ids of two tables joined are the ids of the first followed by those of the second |
| PlayedGames.AppIdsOfRowsFor | backend/app/routes/played_games.py:64-70 | the rows added for a user carry exactly the requested ids for that user and none for anybody else |
| PlayedGames.SyncReplacesOnlyTheUser | backend/app/routes/played_games.py:38-78 | after a sync the user's ids are exactly the request, in its order, and every other user's ids are unchanged |
| PlayedGames.RemoveFirst | backend/app/routes/played_games.py:93-100 | deleting one row removes exactly one copy when present and changes nothing otherwise |
| PlayedGames.Toggled | backend/app/routes/played_games.py:93-111 | an existing row for the pair is deleted (one copy); otherwise one is appended |
| PlayedGames.ToggleFlips | backend/app/routes/played_games.py:93-111 | toggling flips whether the user has played the game (unless the pair was stored twice) and leaves every other pair's count unchanged |
| PlayedGames.ToggleTwice | backend/app/routes/played_games.py:93-111 | with at most one row per pair, toggling twice restores the table's contents, and from no row restores the table exactly |
| PlayedGames.FirstAfterEnd | backend/app/routes/played_games.py:98-100 | removing the first copy of a row appended to a table that lacks it gives back the table |
| PlayedGames.PlayedGamesTable.constructor | backend/app/routes/played_games.py:17 | the table starts with the given rows |
| PlayedGames.PlayedGamesTable.GetPlayedGames | backend/app/routes/played_games.py:20-35 | a database error is answered with 500 and its text; otherwise the ids listed are exactly those of the user's rows |
| PlayedGames.PlayedGamesTable.SyncPlayedGames | backend/app/routes/played_games.py:38-82 | a database error answers 500 and rolls back; otherwise the user's rows are replaced by one per requested id and the reply is "success", "Synced {n} played games" and the ids |
| PlayedGames.PlayedGamesTable.TogglePlayedGame | backend/app/routes/played_games.py:85-114 | a database error answers 500 and rolls back; otherwise the pair is toggled, answering "removed" (not played) when it existed and "added" (played) when not |
| Preferences.Apply | backend/app/routes/preferences.py:90-92 | every field the request set takes the requested value and every field it left out keeps the stored value |
| Preferences.ApplyIsIdempotent | backend/app/routes/preferences.py:90-92 | applying the same request twice is applying it once, and an empty request changes nothing |
| Preferences.PreferencesTable.constructor | backend/app/routes/preferences.py:37 | the table starts with the given rows |
| Preferences.PreferencesTable.Current | backend/app/routes/preferences.py:47-66 | a user's record is the stored row, or the defaults (shown, shown, 0, 1000, 0, 100, "name", "asc", 50, "") without one |
| Preferences.PreferencesTable.GetPreferences | backend/app/routes/preferences.py:40-69 | a database error answers 500 with its text; otherwise the user's current record |
| Preferences.PreferencesTable.UpdatePreferences | backend/app/routes/preferences.py:72-102 | a database error answers 500 and leaves the table; otherwise the user's row (created from the defaults if missing) takes the request's fields, nobody else's row changes, and the updated row is answered |
| Preferences.PreferencesTable.ResetPreferences | backend/app/routes/preferences.py:105-128 | a database error answers 500 and leaves the table; otherwise the user's row is removed, if any, and "success" / "Preferences reset to defaults" is answered |
| Preferences.UpdateThenGet | backend/app/routes/preferences.py:72-128 | a read after an update answers the updated record, a read after a reset answers the defaults, and other users' records never change |
| AuthRoutes.BearerToken | backend/app/routes/auth.py:69-76 | a missing or empty header is 401 "Not authenticated", a header without a space is 401 "Invalid authorization header"; a token is found exactly when the header has a space, and it is shorter than the header and holds no space |
| AuthRoutes.SplitFieldIsShorter | backend/app/routes/auth.py:74 | every field of a text split at spaces, when it has one, is shorter than the text |
| AuthRoutes.SecondFieldIsTheToken | backend/app/routes/auth.py:72-76 | for a header made of space-free words, the token is the second word whatever the first word is and whatever follows |
| AuthRoutes.GetCurrentUser | backend/app/routes/auth.py:62-89 | a header error is answered as is; otherwise the user the token verifies to, or 401 "Invalid or expired token" |
| AuthRoutes.Logout | backend/app/routes/auth.py:91-111 | a header error changes nothing; an unknown token answers 400 "Logout failed" and changes nothing; a known token answers "Logged out successfully" and only that session is deactivated; after a successful logout the same header is refused by the user route at any time and for any claims |
| AuthRoutes.AuthCallback | backend/app/routes/auth.py:23-60 | an unverified Steam id redirects to "?error=steam_auth_failed" and a missing profile to "?error=profile_fetch_failed", changing nothing; otherwise the user exists afterwards and the redirect carries a token that verifies to that user |
| Sessions.FindBySteamId | backend/app/services/auth_service.py:146 | a position whose user has the Steam id, or none exactly when no user has it |
| Sessions.AuthStore.constructor | backend/app/services/auth_service.py:27-30 | no users and no sessions |
| Sessions.AuthStore.UserById | backend/app/services/auth_service.py:222-224 | a user is found exactly for ids 1 to the number of users, and carries that id |
| Sessions.AuthStore.CreateOrUpdateUser | backend/app/services/auth_service.py:136-166 | the user with the Steam id gets the profile's name, avatar and profile URL in place; without one, a new user is appended with the next id; Steam ids stay unique |
| Sessions.AuthStore.CreateSession | backend/app/services/auth_service.py:168-200 | a new token gets an active session for the user expiring 30 days later; a token already stored is refused and nothing changes |
| Sessions.AuthStore.VerifyToken | backend/app/services/auth_service.py:202-227 | a user is answered exactly when the token decodes, names an active session not yet expired, and its claimed user exists; the answer is that user |
| Sessions.AuthStore.LogoutUser | backend/app/services/auth_service.py:229-240 | true exactly when the token has a session, which is then deactivated; afterwards the token never verifies |
| Sessions.SignInThenVerify | backend/app/services/auth_service.py:136-227 | a session created at sign-in lets its token verify to the signed-in user until it expires |
| OpenId.QuoteChar | backend/app/services/auth_service.py:54 | an encoded character never holds the pair separators "&" or "=" |
| OpenId.QuotePlus | backend/app/services/auth_service.py:54 | an encoded component never holds "&" or "=" |
| OpenId.UnquoteChar | backend/app/services/auth_service.py:54 | reading back one encoded character gives the character, whatever follows |
| OpenId.UnquoteQuotePlus | backend/app/services/auth_service.py:54 | reading back an encoded ASCII component gives the original text |
| OpenId.EncodedPairs | backend/app/services/auth_service.py:54 | one "key=value" item per parameter, each component encoded, none holding "&" |
| OpenId.DecodePairs | backend/app/services/auth_service.py:54 | a decoded query has one pair per item |
| OpenId.DecodeEncodedPairs | backend/app/services/auth_service.py:54 | the encoded items decode to exactly the parameters, in order |
| OpenId.DecodeUrlEncode | backend/app/services/auth_service.py:54 | a non-empty encoded query string decodes to exactly its parameters, in order |
| OpenId.ApiUrl | backend/app/services/auth_service.py:36-39 | the configured API URL when set and non-empty, else "http://localhost:8000" |
| OpenId.LoginParamsAscii | backend/app/services/auth_service.py:45-52 | every key and value of the sign-in request is ASCII when the API URL is |
| OpenId.LoginUrlDecodes | backend/app/services/auth_service.py:41-54 | the login URL is the provider's endpoint, "?", and a query string that decodes to exactly the sign-in request |
| OpenId.GetLoginUrl | backend/app/services/auth_service.py:41-54 | the login URL starts with the Steam endpoint and its query decodes to the checkid_setup request: the 2.0 namespace, a return address at the API's "/auth/callback", the API as realm, and identifier_select for both identity fields |
| OpenId.SteamIdOf | backend/app/services/auth_service.py:71 | the Steam id is the suffix of the claimed identifier after its last "/", and holds no "/" |
| OpenId.SplitIsSuffix | backend/app/services/auth_service.py:71 | the last field of a text split at "/" is a suffix of it preceded by "/" when shorter |
| OpenId.SteamIdAfterLastSlash | backend/app/services/auth_service.py:71 | an identifier ending in "/" followed by a slash-free id yields exactly that id |
| OpenId.CheckRequest | backend/app/services/auth_service.py:74-75 | the verification request carries every field of the assertion, with the mode replaced |
| OpenId.Decide | backend/app/services/auth_service.py:84-89 | an id is accepted exactly when the reply arrived and contains "is_valid:true", or the id is all digits; the id accepted is the claimed one |
| OpenId.VerifySteamIdAsWritten | backend/app/services/auth_service.py:56-94 | as written (mode "check_auth"), an id is accepted only from an id_res assertion whose claimed identifier is a Steam community id, and is the text after its last "/" |
| OpenId.VerifySteamId | backend/app/services/auth_service.py:56-94 | with the standard mode "check_authentication", the same guarantees, and the id holds no "/" |
| OpenId.ErrorReplyNotValid | backend/app/services/auth_service.py:84 | a conforming provider's error reply does not contain "is_valid:true" |
| OpenId.NegativeReplyNotValid | backend/app/services/auth_service.py:84 | a conforming provider's negative verdict does not contain "is_valid:true" |
| OpenId.AsWrittenIgnoresSignature | backend/app/services/auth_service.py:74-89 | as written, against a conforming provider the signature never matters: a positive assertion is accepted exactly when its id is all digits |
| OpenId.ForgedAssertionAccepted | backend/app/services/auth_service.py:74-89 | as written, an unsigned assertion naming any numeric Steam id is accepted |
| OpenId.SignatureDecides | backend/app/services/auth_service.py:74-89 | with the standard mode, a conforming provider's verdict is read: a validly signed assertion is accepted whatever its id, an unsigned one only through the development fallback for numeric ids |
| NameNormalizer.RemoveMarks | backend/app/services/auth_service.py:351 | the result holds no trademark, registered or copyright sign and only characters of the input |
| NameNormalizer.LeadingSpaces | backend/app/services/auth_service.py:353 | the length of the whitespace run the text starts with |
| NameNormalizer.ColonsToSpace | backend/app/services/auth_service.py:353 | no colon survives, and every character is from the input or a space |
| NameNormalizer.CollapseSpaces | backend/app/services/auth_service.py:354 | whitespace survives only as single spaces, every character is from the input or a space, the result is empty exactly when the input is, and it starts with the input's first character (a space for whitespace) |
| NameNormalizer.TitleChar | backend/app/services/auth_service.py:356 | a non-letter is kept; a letter keeps its letter and becomes upper-case exactly when it starts a run of letters |
| NameNormalizer.TitleFrom | backend/app/services/auth_service.py:356 | each character is title-cased according to whether a letter precedes it |
| NameNormalizer.Title | backend/app/services/auth_service.py:356 | same length, letters in the same places, non-letters unchanged, and a letter is upper-case exactly when it starts a run of letters |
| NameNormalizer.StripEnd | backend/app/services/auth_service.py:357 | a prefix of the text that does not end in whitespace |
| NameNormalizer.Strip | backend/app/services/auth_service.py:357 | the text between its leading and trailing whitespace, without whitespace at either end |
| NameNormalizer.TitleKeepsShape | backend/app/services/auth_service.py:356 | title-casing keeps a name free of marks and colons and single-spaced |
| NameNormalizer.SliceKeepsShape | backend/app/services/auth_service.py:357 | stripping keeps a name clean, single-spaced and title-cased |
| NameNormalizer.NormalizeGameName | backend/app/services/auth_service.py:347-357 | a normalised name has no trademark sign and no colon, single spaces only, title case, and no whitespace at either end |
| NameNormalizer.ColonsToSpaceKeeps | backend/app/services/auth_service.py:353 | a name without colons passes the colon step unchanged |
| NameNormalizer.CollapseSpacesKeeps | backend/app/services/auth_service.py:354 | a single-spaced name passes the whitespace step unchanged |
| NameNormalizer.TitleFromKeeps | backend/app/services/auth_service.py:356 | a title-cased text is its own title case |
| NameNormalizer.TitleKeeps | backend/app/services/auth_service.py:356 | a title-cased text is its own title case |
| NameNormalizer.StripEndKeeps | backend/app/services/auth_service.py:357 | a text not ending in whitespace keeps its end when stripped |
| NameNormalizer.NormalizedIsFixed | backend/app/services/auth_service.py:347-357 | a normalised name is its own normalisation |
| NameNormalizer.NormalizeIsIdempotent | backend/app/services/auth_service.py:347-357 | normalising twice is normalising once |
| StoreFetch.Pow2 | backend/app/services/auth_service.py:330 | powers of two are at least 1 |
| StoreFetch.ParseDetailsOfListed | backend/app/services/auth_service.py:290-315 | the store's reply for a listed game with a name parses back to that game |
| StoreFetch.UnlistedParsesToNothing | backend/app/services/auth_service.py:294-324 | an entry that is missing, has no data key, null or non-dictionary data, or data without a name gives no game |
| StoreFetch.GetGameInfo | backend/app/services/auth_service.py:272-345 | without a usable API key nothing is requested; the waits before retries are 2^retry_count, 2^(retry_count+1), ... and never take the attempt count past max_retries; a game found carries the app id and a non-empty name and came from a 200 reply |
| StoreFetch.ThrottledGivesUp | backend/app/services/auth_service.py:327-336 | when every attempt is answered 429 or 403, the lookup retries exactly max_retries - retry_count times and gives up |
| StoreFetch.RetriedUntilAnswered | backend/app/services/auth_service.py:290-334 | throttled for its first attempts and then answered with a listing, the lookup finds the game after exactly one backoff wait per throttled attempt |
| StoreFetch.Waits | backend/app/services/auth_service.py:330 | the backoff schedule between two attempts has one wait per attempt |
| StoreFetch.TotalWait | backend/app/services/auth_service.py:327-334 | the waits of one lookup add up to 2^(retry_count + retries) - 2^retry_count seconds (at most 7 with the defaults) |
| StoreFetch.DoublingSum | backend/app/services/auth_service.py:330 | successive powers of two from 2^k add up to the next power less 2^k |
| StoreFetch.BuildGame | backend/app/services/auth_service.py:508-518 | the record carries the app id, the store's name and header image, the HLTB playtime (0 when missing or zero), and score 0 with 0 reviews when no review data came back |
| StoreFetch.Process | backend/app/services/auth_service.py:484-535 | every app is counted as found or skipped, and the found count is the number of games built |
| StoreFetch.ProcessPartition | backend/app/services/auth_service.py:484-535 | exactly the apps whose lookup returned no named game are marked delisted; exactly the apps found become games; a lookup that raised is neither |
| StoreFetch.DelistedIn | backend/app/services/auth_service.py:433 | the requested ids the table records as delisted |
| StoreFetch.ToFetch | backend/app/services/auth_service.py:459 | the requested ids the table does not record |
| StoreFetch.SkippedPlusFetched | backend/app/services/auth_service.py:459-460 | every requested id is either skipped as delisted or fetched |
| StoreFetch.Recheck | backend/app/services/auth_service.py:432-456 | after the re-check, a restored game's record is gone and every other re-checked record is stamped with the current time; records not re-checked are unchanged |
| StoreFetch.SaveDelisted | backend/app/services/auth_service.py:538-547 | every newly delisted id gets a record stamped with the current time unless it already had one, which is kept |
| StoreFetch.NoSecondRecheckWithinDay | backend/app/services/auth_service.py:416-430 | after a re-check that left a requested record in place, no re-check is due again within a day |
| StoreFetch.ViewHas | backend/app/services/auth_service.py:405 | every row's id is in the table's map view |
| StoreFetch.ViewBounded | backend/app/services/auth_service.py:411 | no time in the map view exceeds a bound that every row respects |
| StoreFetch.UniqueTail | backend/app/services/auth_service.py:405 | a table without repeated ids stays so without its first row |
| StoreFetch.ViewAt | backend/app/services/auth_service.py:405 | in a table without repeated ids, every row's time is what the map view holds for its id |
| StoreFetch.Drop | backend/app/services/auth_service.py:445 | deleting an id's records keeps only rows of the table and keeps ids unique |
| StoreFetch.DropView | backend/app/services/auth_service.py:445 | deleting an id's records removes exactly that id from the map view |
| StoreFetch.Stamp | backend/app/services/auth_service.py:450-452 | updating an id's records keeps every row's id and the row count |
| StoreFetch.StampView | backend/app/services/auth_service.py:450-452 | updating an id's records sets exactly that id's time in the map view, if it has one |
| StoreFetch.ViewAppend | backend/app/services/auth_service.py:545 | adding a row for an unrecorded id adds exactly that entry to the map view |
| StoreFetch.DelistedStore.constructor | backend/app/services/auth_service.py:403-405 | the store starts from the given rows, which have unique ids |
| StoreFetch.DelistedStore.LastCheck | backend/app/services/auth_service.py:409-411 | none exactly without records; otherwise the latest check time of any record |
| StoreFetch.DelistedStore.IsRefetchDue | backend/app/services/auth_service.py:416-430 | the re-check is due exactly when there is a database, some requested id is recorded, and even the latest check is more than a day old |
| StoreFetch.DelistedStore.RunRecheck | backend/app/services/auth_service.py:437-454 | the loop leaves the table as the re-check prescribes, keeping ids unique |
| StoreFetch.DelistedStore.SaveNewlyDelisted | backend/app/services/auth_service.py:538-547 | the loop leaves the table as the save prescribes, keeping ids unique |
| StoreFetch.DelistedStore.FetchUnknownGamesInfo | backend/app/services/auth_service.py:383-550 | the re-check runs only when due; with a database recorded ids are skipped; the games and counts are those of processing the fetched ids; new delisted ids are saved unless there is no database or the save fails |
| StoreFetch.ProcessResults | backend/app/services/auth_service.py:484-535 | the results loop computes exactly the processing of the fetched ids, in order |
| Migration.NewRows | backend/app/db/migration_to_user_platforms.py:36-61 | no more rows are added than there are users, each a 'steam' row copied from a user with a Steam id, active and stamped with the current time (one per user: see NewRowsCountFor and AtMostOneNewRowPerUser) |
| Migration.Skipped | backend/app/db/migration_to_user_platforms.py:43-46 | no more users are skipped than there are |
| Migration.SteamUsers | backend/app/db/migration_to_user_platforms.py:31 | no more users have a Steam id than there are users |
| Migration.MigratedPlusSkipped | backend/app/db/migration_to_user_platforms.py:31-61 | every user with a Steam id is either migrated or skipped |
| Migration.NoRowForOthers | backend/app/db/migration_to_user_platforms.py:49-58 | the new rows belong to the given users only |
| Migration.NewRowFor | backend/app/db/migration_to_user_platforms.py:36-61 | a user gets a new row exactly when it has a Steam id and no 'steam' row yet |
| Migration.LaterRowKeepsAnswer | backend/app/db/migration_to_user_platforms.py:36-61 | the row added for a later user does not change the answer for an earlier one |
| Migration.HasSteamAppend | backend/app/db/migration_to_user_platforms.py:38-41 | appending another user's row does not change whether a user has a 'steam' row |
| Migration.LastRow | backend/app/db/migration_to_user_platforms.py:36-61 | the last user gets a row exactly when it has a Steam id and no 'steam' row yet |
| Migration.AllSteamUsersMigrated | backend/app/db/migration_to_user_platforms.py:19-66 | after the migration every user with a Steam id has a 'steam' row |
| Migration.SecondRunAddsNothing | backend/app/db/migration_to_user_platforms.py:24 | the migration is safe to repeat: a second run adds nothing |
| Migration.NothingNew | backend/app/db/migration_to_user_platforms.py:43-46 | no rows are added when every user with a Steam id already has one |
| Migration.SteamRowCountAppend | backend/app/db/migration_to_user_platforms.py:60 | adding rows to the table adds their 'steam' rows to each user's count |
| Migration.NoNewRowCounted | backend/app/db/migration_to_user_platforms.py:36-61 | a user the migration does not read gets no new row |
| Migration.NewRowsCountFor | backend/app/db/migration_to_user_platforms.py:36-61 | a user gets exactly one new row when it has a Steam id and no 'steam' row yet, and none otherwise |
| Migration.AtMostOneNewRowPerUser | backend/app/db/migration_to_user_platforms.py:36-61 | with distinct user ids the migration adds at most one 'steam' row per user |
| Migration.HasSteamCounted | backend/app/db/migration_to_user_platforms.py:38-43 | the existence check succeeds exactly when the user's 'steam' row count is positive |
| Migration.OneSteamRowAfterMigration | backend/app/db/migration_to_user_platforms.py:19-66 | after the migration each user with a Steam id has exactly one 'steam' row, when it had at most one before |
| Migration.PlatformDb.constructor | backend/app/db/migration_to_user_platforms.py:26-27 | the tables start as given, with distinct user ids |
| Migration.PlatformDb.MigrateSteamUsersToPlatforms | backend/app/db/migration_to_user_platforms.py:19-73 | a database error rolls back and is raised again; otherwise the platform table gains exactly the new rows and the answer is (migrated, skipped) |
| Migration.ExistingCheck | backend/app/db/migration_to_user_platforms.py:38-41 | rows added for earlier users never answer the check for a later user |
| Picker.FetchSteamLibrary | main.py:45-65 | a cached library is returned unchanged without asking the API; otherwise the API's library is returned, and it is written to the cache exactly when the cache is on and held nothing |
| Picker.EnrichGameData | main.py:67-143 | the enriched game keeps the library's name and app id and gets its store link; HowLongToBeat is marked available exactly when the main-story playtime is positive; a HowLongToBeat lookup is written back (the match or the not-found marker) exactly on a cache miss with the cache on; a review is written back exactly on a miss with the cache on and a score fetched |
| Picker.HltbDefaults | main.py:98-112 | without a HowLongToBeat match, or with the not-found marker cached, the game has playtime 0, no HowLongToBeat link, its own name and is not marked available |
| Picker.ReviewDefaults | main.py:128-136 | without review data the game has score 0 from "N/A", 0 reviews and "No reviews" |
| Picker.CacheHitsWin | main.py:87-91 | with both lookups cached, what the services would answer has no effect on the result |
| Picker.NotFoundIsRemembered | main.py:90-100 | a missed lookup is cached as the not-found marker, and a later enrichment that reads the marker yields the same game without searching |
| Picker.Truncate | main.py:157-158 | a positive limit keeps the first min(limit, length) games; no limit or a limit of 0 keeps the whole library |
| Picker.Kept | main.py:161-172 | the kept games are never more than the library, each is the enrichment of some library game, and when no enrichment raises every game is kept |
| Picker.ProcessLibrary | main.py:145-175 | the loop's result is the enrichments that did not raise, in library order, of the truncated library; a positive limit bounds their number |
| Picker.PriorityOrderIsPreorder | main.py:188 | the key (playtime, -score) orders games totally and transitively |
| Picker.SortGames | main.py:177-188 | the result is a permutation of the games, by ascending playtime, and by descending score among games of equal playtime |
| Picker.Rule | main.py:200 | the frame line is 80 '=' characters |
| Picker.GameLines | main.py:205-212 | each game block has seven lines, the first "N. name", the last empty |
| Picker.Blocks | main.py:205-212 | there are seven lines per game, and the block of the i-th game starts with its 1-based position and its name |
| Picker.OutputLines | main.py:200-216 | the report starts with the framed title and ends with "Total: N games" between two frame lines; game i is listed as "i. name" at line 4 + 7i |
| Picker.ReportEndsWithTotal | main.py:214-218 | when no field holds a newline, splitting the joined report gives back its 7N + 7 lines, the second to last being the total |
| Picker.Run | main.py:232-259 | no output at all when no game was enriched; otherwise the JSON output (when asked for) is every enriched game in priority order, and the printed report (when asked for) lists those same games |
| ReviewScore.Percentage | review_api.py:54 | the score is positive / (positive + negative) x 100: 100 without negative votes, 0 without positive ones, 0 without votes, and within 0..100 for non-negative counts |
| ReviewScore.GetSteamScore | review_api.py:20-73 | a failed request gives no score, and a reply gives one exactly when its total review count (0 when absent) is non-zero; the score is from "Steam", carries the positive and negative counts (0 when absent), their percentage and the description ("No reviews" when absent) |
| ReviewScore.ScoreIsPercentage | review_api.py:50-54 | with non-negative vote counts every score lies between 0 and 100 |
| ReviewScore.GetScore | review_api.py:75-88 | the score for a game is the Steam score; the name plays no part |
| FileCache.SanitizeKey | cache.py:29-33 | the file name has the key's length, and keeps each letter, digit, '_' and '-' while every other character becomes '_' |
| FileCache.SanitizeIsIdempotent | cache.py:32 | a file name holds only kept characters, so sanitising it again changes nothing |
| FileCache.ReplacedCharactersCollide | cache.py:32 | two keys that differ only in one replaced character map to the same file |
| FileCache.Write | cache.py:66-84 | a write adds the key's file to the directory and removes none |
| FileCache.ReadAfterWrite | cache.py:47-60 | a value read back no later than the time-to-live after it was written is the value written, an age of exactly the time-to-live included |
| FileCache.ExpiredAfterTtl | cache.py:54-57 | a value older than the time-to-live reads as missing |
| FileCache.MissingTimestampIsEpoch | cache.py:55 | an entry without a timestamp counts as written at time 0 |
| FileCache.WriteKeepsOthers | cache.py:74-84 | a write changes no read of a key with a different file name |
| FileCache.DumpFailureLosesEntry | cache.py:82-88 | after a failed dump the key reads as missing whatever it held, and keys with other file names read as before |
| FileCache.Cache.constructor | cache.py:17-27 | the cache starts on the existing directory with the given time-to-live |
| FileCache.Cache.Set | cache.py:66-88 | the directory gains the written entry; it is unchanged when opening the file raised; when the dump raised after `open` emptied the file, that file becomes undecodable |
| FileCache.Cache.Clear | cache.py:90-95 | afterwards the directory is empty and every key reads as missing |
| CacheExport.ReplaceAll | scripts/cache_to_json.py:39 | a name without the prefix in it comes back unchanged |
| CacheExport.ReplaceChar | scripts/cache_to_json.py:66 | replacing one character by another keeps the length and changes exactly the positions that held that character |
| CacheExport.DisplayName | scripts/cache_to_json.py:66 | the display name has the group name's length, no underscore, and every other character in place |
| CacheExport.StripPrefix | scripts/cache_to_json.py:38-39 | a review file whose name holds the prefix only at its head falls into the group of the rest of its name |
| CacheExport.RepeatedPrefixCollapses | scripts/cache_to_json.py:39 | every occurrence of the prefix is removed, so review_review_N and review_N fall into the same group |
| CacheExport.Touch | scripts/cache_to_json.py:40-41 | registering a name adds it to the groups once, keeps the first-appearance order and leaves every value as it was |
| CacheExport.ValueOf | scripts/cache_to_json.py:27-34 | a file contributes a value exactly when it decodes to an object that holds 'value' |
| CacheExport.AddEntry | scripts/cache_to_json.py:23-52 | one file keeps the groups well formed (each name once, every value under a registered name) and never stores a not-found marker as HowLongToBeat data |
| CacheExport.Collect | scripts/cache_to_json.py:23-52 | after the first pass the groups are well formed and hold no not-found marker |
| CacheExport.ReviewCameFromFile | scripts/cache_to_json.py:38-42 | a group's review is the value of one of that group's review files |
| CacheExport.LibraryFileIgnored | scripts/cache_to_json.py:24-25 | the library file never changes the groups |
| CacheExport.GetDefault | scripts/cache_to_json.py:57-75 | the field when present, the default otherwise |
| CacheExport.MakeGame | scripts/cache_to_json.py:56-80 | a group yields a game exactly when its review is a non-empty object with a truthy app id and store link; the game is named after the group with spaces, comes from "Steam" and copies the review's fields; an absent or empty HowLongToBeat entry gives an empty link and the display name, a non-object one empty strings |
| CacheExport.BuildGames | scripts/cache_to_json.py:55-80 | the second pass yields at most one game per group, each the game of one of the groups |
| CacheExport.BuildGamesKeeps | scripts/cache_to_json.py:77-78 | every group that yields a game is in the list |
| CacheExport.StrLeTotal | scripts/cache_to_json.py:83 | any two strings compare one way or the other |
| CacheExport.StrLeTrans | scripts/cache_to_json.py:83 | string comparison is transitive |
| CacheExport.KindOf | scripts/cache_to_json.py:83 | numbers and booleans form one comparable family, strings another, everything else none |
| CacheExport.ByPlaytimeIsPreorder | scripts/cache_to_json.py:83 | ordering by the playtime key, as Python compares it within a family, is total and transitive |
| CacheExport.Export | scripts/cache_to_json.py:11-88 | the export fails exactly when the sort cannot compare the playtimes (two or more games whose playtimes are not all numbers and booleans, or not all strings); otherwise it is a permutation of the second pass's games in ascending playtime, compared numerically for numbers and booleans and by code point for strings |
| CacheExport.ExportedGamesAreComplete | scripts/cache_to_json.py:61-78 | every exported game has a truthy app id and store link, comes from "Steam" and is named after a group that has a review |
| CacheExport.GroupGame | scripts/cache_to_json.py:61-78 | the game of a group has a truthy app id and store link, and the group has a review |
| CacheExport.UsableGroupIsExported | scripts/cache_to_json.py:55-83 | a group with a usable review and store link is in the export |
| CacheExport.CollectPass | scripts/cache_to_json.py:23-53 | the loop over the cache files computes exactly the grouping of the first pass |
| CacheExport.BuildPass | scripts/cache_to_json.py:55-80 | the loop over the group names computes exactly the second pass's games, in group order |
| CacheExport.CacheToJson | scripts/cache_to_json.py:11-88 | the two loops and the sort compute exactly the export above |
| VersionBump.QuoteFrom | increment_version.py:15 | the first '"' at or after the position, or the end of the text when there is none |
| VersionBump.MatchAt | increment_version.py:15 | a match at a position starts with the marker, holds at least one character and ends at the first '"' after the marker |
| VersionBump.Search | increment_version.py:15 | a match found lies inside the text, after the start position, and is a match of the pattern there |
| VersionBump.SearchNone | increment_version.py:15-16 | with no match at any position there is no match found |
| VersionBump.SearchFinds | increment_version.py:15-17 | the search finds the leftmost match |
| VersionBump.QuoteFromFirst | increment_version.py:15 | the closing quote is the first '"' after the marker |
| VersionBump.SubStep | increment_version.py:33-37 | the substitution keeps the text before the first match, replaces the match and goes on after it |
| VersionBump.SubWithoutMatch | increment_version.py:33-37 | without a match the substitution changes nothing |
| VersionBump.NoMatchBefore | increment_version.py:15 | in text without the marker, nothing matches before a version line |
| VersionBump.MatchOfLine | increment_version.py:15 | a version line with a non-empty, quote-free version matches, ending at its closing quote |
| VersionBump.LineFound | increment_version.py:15-17 | the search finds the first version line, and its group is exactly that line's version |
| VersionBump.VersionInLine | increment_version.py:17 | the group of a version line is its version |
| VersionBump.TailNoMarker | increment_version.py:33-37 | text after a version line that holds no marker holds no match |
| VersionBump.SubAfterLast | increment_version.py:33-37 | after the last match the substitution keeps the text unchanged |
| VersionBump.SubOnce | increment_version.py:33-37 | with one match the text is rewritten at that match and nowhere else |
| VersionBump.SubOfLine | increment_version.py:33-37 | the one version line is replaced and the text around it is kept |
| VersionBump.LastSep | increment_version.py:19 | the split point is the last "-v" of the version, and there is none when the version holds no "-v" |
| VersionBump.ParseInt | increment_version.py:21 | a counter parses exactly when it is decimal digits with an optional sign |
| VersionBump.ParseIntToString | increment_version.py:21 | the decimal rendering of an integer parses back to it |
| VersionBump.NextCounter | increment_version.py:18-24 | a version without "-v" gives counter 1 |
| VersionBump.NewVersion | increment_version.py:29-30 | the new version is longer than its fixed suffix |
| VersionBump.CounterRoundTrip | increment_version.py:19-30 | a version the script wrote yields the next counter, whatever the date holds |
| VersionBump.LastSepIsLast | increment_version.py:19 | a "-v" with none after it is the split point |
| VersionBump.ScriptCounter | increment_version.py:14-26 | without a version line the counter is 1 |
| VersionBump.BumpWith | increment_version.py:14-37 | without a version line the text is unchanged |
| VersionBump.Bump | increment_version.py:11-41 | without an APP_VERSION line the file text is written back unchanged |
| VersionBump.CounterFound | increment_version.py:16-24 | with a version line the counter is the next counter of the first line's version |
| VersionBump.BumpWithCounter | increment_version.py:28-37 | a parsed counter gives the text with every match replaced by the new version's line |
| VersionBump.BumpWithError | increment_version.py:21 | a counter that does not parse stops the script with its error |
| VersionBump.BumpAt | increment_version.py:14-37 | a first match with a parsable counter is rewritten with the next counter |
| VersionBump.BumpWithRewritesLine | increment_version.py:14-41 | a file with one version line has exactly that line rewritten with the next counter and the date, all else kept |
| VersionBump.MarkerUnbordered | increment_version.py:15 | the marker cannot overlap itself |
| VersionBump.BumpRewritesLine | increment_version.py:11-41 | a file with one APP_VERSION line has exactly that line rewritten to today's version with the next counter |
| VersionBump.RejectAt | increment_version.py:19-21 | a first match whose counter does not parse stops the script |
| VersionBump.BadCounterRejected | increment_version.py:19-21 | a version whose text after the last "-v" is not an integer stops the script with ValueError, whatever follows |
| VersionBump.BumpTwice | increment_version.py:14-41 | two runs on the same file raise the counter by one each time and keep everything else |
| VersionBump.IntToStringChars | increment_version.py:30 | the rendered counter holds only digits and a minus sign |
| VersionBump.VersionQuoteFree | increment_version.py:30 | a date without '"' gives a version without '"', so the rewritten line matches again |

## Left out

- VersionBump.Sub: the replacement is inserted literally; `re.sub` would also interpret backslash escapes in it, which the replacement built from a `strftime` date and a counter never holds.
- StoreFetch.DelistedStore.SaveNewlyDelisted: a row added earlier in the same save is seen by the next existence check (the session flushes before each query), so an id repeated in one save is recorded once.
- CacheExport.Export: stability of the playtime sort is not stated as a contract; the sort used is the stable insertion sort `SortBy`, so games with equal playtimes keep the order of the second pass.
- Preferences.PreferencesTable.UpdatePreferences: a row created by an update starts from the same values the read route answers without a row; the `UserPreferences` column defaults are not part of this model. A request that sets a field explicitly to `null` is not represented: a `Patch` field is either left out or holds a value.
- Played.LeadingDigit: the digit is that of the exact value; `String` prints the shortest decimal that round-trips the double, which can round the leading digit up next to a power of ten (the double nearest 10^23 is just below it yet prints as "1e+23").
- Played.ReloadRestoresSet: holds only for ids below 10^21 in magnitude; larger ids are written in exponent form and read back as their leading digit (Played.HugeIdReadsBackAsDigit), and ids beyond 2^53 are not held exactly by a double anyway.
- Migration.OneSteamRowAfterMigration: requires at most one 'steam' row per user before the run; the UserPlatform model is not part of this model, so whether the table forbids duplicates is unknown, and the migration keeps any duplicate it finds.
- Network calls are not modelled; each service's answer is an input. This covers the Steam Web and Store APIs, HowLongToBeat, the OpenID provider, `get_steam_profile` and the hooks' `fetch`. `steam_api.py` and `hltb_api.py` are not part of this model.
- Databases are not modelled as such. A table is a map or a sequence of rows, a commit is all or nothing, and whether it raised is an input.
- The connection handling of SQLAlchemy sessions (open, close) is not modelled.
- Clocks are parameters: `Date.now()`, `time.time()`, `datetime.now()` and `datetime.utcnow()`.
- Timers, intervals, `IntersectionObserver`, `async`/`await`, `asyncio.gather` and the store-lookup semaphore are not modelled. Each interval or callback is a method the environment calls, and gathered lookups are processed in request order.
- Floating point is not modelled. Hours and scores are reals, used only in comparisons.
  - `round(score, 1)` in the review score is not modelled.
  - The `:.1f` and `:,` renderings of the report are inputs.
  - NaN never arises.
- JSON parsing and serialisation are not modelled. A stored text is either a JSON value or unparsable; indentation and `ensure_ascii` are not modelled.
- The JWT is opaque. Its text and the claims it decodes to are inputs.
- Unicode is not modelled. Letter case, digits (`isdigit`, `isalnum`), whitespace (`\s`) and title case are the ASCII ones.
- OpenId.QuotePlus: URL encoding covers ASCII text only.
- OpenId.VerifySteamId: the corrected verification keeps the source's development fallback. When the provider does not confirm an assertion, a numeric claimed id is still accepted, so the unsigned assertion of the findings below is still accepted.
- FastAPI's 422 answers to malformed query parameters are modelled only as the declared bounds. The body of the error is not modelled.
- Python's `sorted` and `list.sort` are modelled as stable sorts. A `TypeError` is modelled only where mixed value kinds are possible: the playtimes of the cache export, where numbers and booleans sort together and strings sort together.
- CacheExport.Comparable: two or more playtimes that include a `null`, an object or a list count as a `TypeError`; Python does compare lists with each other element by element, which is not modelled.
- VersionBump.ParseInt: the whitespace and underscores that Python's `int()` also accepts are not modelled.
- Picker.Truncate: a negative `max_games` is modelled as Python's slice from the end, not as a limit.
- The picker's cache is modelled per lookup: what it held under each key is an input. The key strings themselves (`hltb_<name>`, `review_<appid>`) are not modelled.
- Picker.EnrichGameData: the rate-limiting sleeps are not modelled.
- Picker.Run: the JSON file is not written and the report is not printed; they are the function's result.
- FileCache.Cache.Clear: a deletion that fails part way through is not modelled; clear is all or nothing.
- A cache file is either an object or unreadable. A JSON file holding something other than an object is read as unreadable.
- CacheExport.MakeGame: states the app id, store link, playtime, name, source and HowLongToBeat defaults. It does not state the defaults of score, total reviews and description, which are copied the same way.
- The mascot's blinking, waving and dancing timers are not modelled, and neither is its SVG drawing.
- The presentation components and the auth plumbing of the web client are not part of this model. Neither are the one-off database scripts, configuration, CORS, or the backend's application wiring.

## Findings

| source | as written | input that shows it | evidently intended | confidence | as-written member | corrected member |
|---|---|---|---|---|---|---|
| web/src/components/MascotTamagotchi.jsx:123-126 | the `> 300` test comes before the `> 600` test, so level 1 is set and the level-2 branch never runs | alive time 601 at level 0 gives level 1 | level 2 after 600 seconds alive, level 1 after 300 | not executed | Mascot.EvolutionAsWrittenNeverReachesTwo | Mascot.EvolutionTracksAliveTime |
| web/src/components/MascotTamagotchi.jsx:145-162 | a key that does not match resets the code index to 0 without checking it against the code's first key | "ArrowUp" followed by the ten keys of the code never shows the pet | the code is recognised whenever its ten keys are the last ten pressed, which is what the kept `lastKeys` window supports | not executed | Mascot.KonamiAsWrittenMissesCode | Mascot.CodeAlwaysRecognised |
| backend/app/services/auth_service.py:74-89 | the verification request uses the mode "check_auth", not "check_authentication" (section 11.4.2.1 of OpenID Authentication 2.0). A conforming provider answers it with an error, so "is_valid:true" never appears and the result depends on the claimed id alone | an assertion the provider would confirm and one it would reject get the same answer; an unsigned `id_res` assertion claiming `https://steamcommunity.com/openid/id/1` is accepted | the standard's mode, so the provider's verdict is read and a confirmed assertion is accepted whatever its id | not executed | OpenId.AsWrittenIgnoresSignature | OpenId.SignatureDecides |
