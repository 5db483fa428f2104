# TravelPlanner core, modelled in Dafny

TravelPlanner is a browser application that turns a free-text travel request
("3 days in goa under 10000 with beaches") into a day-by-day itinerary, keeps
the trips it made in the browser's `localStorage`, and pages through them in a
history view. This project models its non-UI core and proves properties of it:

- **the local trip store** (`lib/pagination.ts`): one storage slot holding the
  serialised trip list; reading it back validated and sorted newest first; the
  upsert by id (`persistTripToStorage`); cursor pagination (`getTrips`), whose
  cursor is the `createdAt` of the last trip served; and `getLatestTrip`
  (module `LocalStore`, class `TripStorage`, file `local_store.dfy`);
- **the rule-based itinerary generator** (`lib/ai.ts`): the day count, budget
  and destination read from the lowercased prompt (module `Prompt`,
  `prompt.dfy`), and the destination category, the travel-estimate gazetteer,
  the activity templates and the assembled trip (module `Planner`,
  `planner.dfy`);
- **the normaliser of untrusted model output** (`lib/parser.ts`): a JSON value
  coerced into a trip (module `Normalizer`, `normalizer.dfy`);
- **the two application state slices**: the current trip, whose edits write
  through to the store (`store/tripStore.ts`; module `TripState`, class
  `TripSlice`, `trip_state.dfy`), and the history list with its
  move-to-top upsert (`store/historyStore.ts`; module `HistoryState`, class
  `HistorySlice`, `history_state.dfy`).

The records of `types/trip.ts` are the datatypes of `trip_types.dfy`, and the
JavaScript string behaviour the code relies on (`\s`, `trim`, ASCII
`toLowerCase`, `includes`, whole-word `\b` matches, `<` on strings, decimal
numerals) is in `text.dfy`.

The store and the two state slices are classes whose methods update fields:
`TripStorage.slot` is the storage slot, `TripSlice` holds a reference to the
`TripStorage` it writes through to, and `HistorySlice` keeps its list in a
`seq<Trip>` field. Each method states its new state in terms of a function of
the old one (`AfterPersist`, `Paginate`, `UpdateActivityInDays`,
`ReplaceDayInDays`, `MoveToTop`), and the properties are proved about those
functions. The generator and the normaliser are pure code and are pure
functions here.

Behaviours of the code that the model makes explicit:

- The destination is cut from the *lowercased* prompt, so unless it is the
  fallback "Your Destination" it is lower-case ("Goa" in the prompt gives "goa").
- The day count needs digits followed by optional spaces and "day": "5-day trip"
  has no such match and gives 3 days (`Prompt.DayCountOfHyphenatedNumeral`).
- The `.replace(/\s+under.*$/i, "")` applied to the destination never changes
  it. Neither the phrase capture, which stops before a `\s+under`, nor a
  gazetteer name can hold one (`Prompt.StripUnderKeepsDestinationText`).
- `getDestinationVibe` never returns `"hill_station"`, so that title template is
  never used (`Planner.DestinationVibe`).
- Pagination is exact only for distinct timestamps. The next page starts just after the
  *first* trip whose `createdAt` equals the cursor
  (`findIndex(createdAt === cursor) + 1`), so a page that ends inside a run of
  equal timestamps is followed by one that serves part of that run again. The
  walk over all pages is proved for distinct ids and distinct non-empty timestamps
  (`LocalStore.WalkVisitsEveryTripOnce`), and the repeat is shown by an
  example (`LocalStore.TiedTimestampRepeats`).

## Model

| member | source | states |
|---|---|---|
| `LocalStore.Encode` | lib/pagination.ts:52 | A trip written with `JSON.stringify` reads back as a record that passes the validation and decodes to the same trip. |
| `LocalStore.TripEntriesKeepsExactlyTrips` | lib/pagination.ts:22-33 | A trip is in the filtered list if and only if some stored element is an object with string `id`, `createdAt`, `tripTitle`, `totalBudget` and an array `days` that decodes to it. |
| `LocalStore.TripEntriesOfEncoded` | lib/pagination.ts:22-33 | Filtering a list the store itself wrote keeps every entry, in order. |
| `LocalStore.SortPermutes` | lib/pagination.ts:35 | The recency sort is a permutation of its input. |
| `LocalStore.SortDescending` | lib/pagination.ts:35 | The sorted list is non-increasing in `createdAt` string order. |
| `LocalStore.SortKeepsTies` | lib/pagination.ts:35 | The sort is stable: the trips sharing a timestamp stay in their stored order. |
| `LocalStore.SortOfDescending` | lib/pagination.ts:35 | An already descending list is left as it is. |
| `LocalStore.SortCountId` | lib/pagination.ts:35 | Sorting keeps how many entries carry each id. |
| `LocalStore.InsertDescending` | lib/pagination.ts:35 | Inserting one trip into a descending list by recency keeps it descending. |
| `LocalStore.InsertPermutes` | lib/pagination.ts:35 | The insertion step adds exactly the inserted trip. |
| `LocalStore.InsertKeepsTies` | lib/pagination.ts:35 | The insertion step keeps each timestamp's trips in their order, with the inserted trip (written first) before the others sharing its timestamp. |
| `LocalStore.InsertCountId` | lib/pagination.ts:35 | The insertion step changes no entry's id. |
| `LocalStore.ReadAllFrom` | lib/pagination.ts:9-41 | Outside a browser, with no slot, unparsable text or a non-array value, the result is `[]`; otherwise it is the validated entries, as a permutation that is descending in `createdAt` and keeps equal timestamps in stored order. |
| `LocalStore.WithoutId` | lib/pagination.ts:49 | The filter leaves no entry with the id, removes exactly the entries that carry it, and keeps every other trip. |
| `LocalStore.WithoutIdDescending` | lib/pagination.ts:49 | Filtering a descending list keeps it descending. |
| `LocalStore.WithoutAbsentId` | lib/pagination.ts:49 | Filtering an id that no entry carries changes nothing. |
| `LocalStore.WithoutIdOfInsert` | lib/pagination.ts:49 | Removing the id of a newly inserted trip undoes the insertion. |
| `LocalStore.ReadAfterPersist` | lib/pagination.ts:43-53 | After a persist, reading back gives the trip inserted by recency into the earlier entries without its id. |
| `LocalStore.PersistStoresTripOnce` | lib/pagination.ts:46-52 | After a persist the store holds the trip, exactly one entry with its id, and that entry is the trip; the other entries are the earlier ones without that id, in their order. |
| `LocalStore.PersistIdempotent` | lib/pagination.ts:43-53 | Persisting the same trip twice leaves the slot as persisting it once. |
| `LocalStore.IndexOfCreatedAtFirst` | lib/pagination.ts:80 | `findIndex(createdAt === cursor)` is the first index with that timestamp, or -1 exactly when none has it. |
| `LocalStore.IndexOfOlderFirst` | lib/pagination.ts:85 | `findIndex(createdAt < cursor)` is the first index with an older timestamp, or -1 exactly when none is older. |
| `LocalStore.SliceBound` | lib/pagination.ts:92 | An end bound of `slice` is clamped to the list, and unchanged when it is in range. |
| `LocalStore.StartIndexCases` | lib/pagination.ts:76-90 | With no cursor the page starts at 0; with a cursor equal to some timestamp, just after the first trip carrying it; otherwise at the first older trip, and there is no page exactly when no trip is older. |
| `LocalStore.PaginateShape` | lib/pagination.ts:66-105 | An empty store or page gives `{[], null}`; a page has at most `limit` trips and is the run of the sorted list from the start index; the cursor is null exactly when the page's last trip (found by its id) is the last stored trip, and otherwise is its `createdAt`. |
| `LocalStore.StartAfterServed` | lib/pagination.ts:76-90 | With distinct non-empty timestamps, the cursor left after serving the first `s` trips makes the next page start at `s`. |
| `LocalStore.PageAfterServedMore` | lib/pagination.ts:92-104 | With distinct ids and timestamps, that page is the next `limit` trips, with the timestamp of its last trip as cursor, while trips remain after it. |
| `LocalStore.PageAfterServedLast` | lib/pagination.ts:92-104 | With distinct ids and timestamps, once the remaining trips fit in one page, that page holds them all with a null cursor. |
| `LocalStore.DrainFrom` | lib/pagination.ts:66-105 | Following the cursors from the start of any remaining run, with enough calls, serves exactly that run. |
| `LocalStore.WalkVisitsEveryTripOnce` | lib/pagination.ts:60-105 | With distinct ids and distinct non-empty timestamps (an empty cursor is falsy, so the walk would restart at the top), starting without a cursor and passing each `nextCursor` back, `ceil(n / limit)` calls serve every stored trip exactly once, newest first, and stop with a null cursor. |
| `LocalStore.TiedTimestampRepeats` | lib/pagination.ts:80-104 | Two trips that share a timestamp at a page boundary: the next page restarts after the first of them, so walking the pages serves the second twice. |
| `LocalStore.TripStorage.constructor` | lib/pagination.ts:3-7 | The storage starts with the given slot and browser flag. |
| `LocalStore.TripStorage.ReadAll` | lib/pagination.ts:9-41 | `readAllTripsFromStorage` on the current slot, which is descending in `createdAt`. |
| `LocalStore.TripStorage.Persist` | lib/pagination.ts:43-53 | The new slot is the old one with the trip upserted, and nothing outside a browser; in a browser the store then holds the trip and one entry with its id. |
| `LocalStore.TripStorage.GetTrips` | lib/pagination.ts:66-105 | The branching computation of the start index and page equals `Paginate` on the sorted snapshot, and so has the properties above. |
| `LocalStore.TripStorage.LatestTrip` | lib/pagination.ts:110-113 | Null exactly when the read-back list is empty, which includes a slot holding only entries that fail the check; otherwise the first trip of the read-back list, which no stored trip is newer than. |
| `Text.Lower` | lib/ai.ts:109 | `toLowerCase` keeps the length and lowers each ASCII capital. |
| `Text.Trim` | lib/ai.ts:117 | `trim` removes a leading and a trailing run of whitespace, and its result neither starts nor ends with whitespace. |
| `Text.StrLessTransitive` | lib/pagination.ts:35 | String `<` is transitive. |
| `Text.StrLessTotal` | lib/pagination.ts:35 | Two different strings are ordered one way or the other. |
| `Text.NotLessTransitive` | lib/pagination.ts:35 | "Not newer than" is transitive, as the descending order needs. |
| `Text.RemoveSpaces` | lib/ai.ts:29 | Removing the whitespace leaves no whitespace and never lengthens the text. |
| `Text.RemoveSpacesAppend` | lib/ai.ts:29 | Removing the whitespace of a concatenation concatenates the pieces with their whitespace removed. |
| `Text.RemoveSpacesOfSpaces` | lib/ai.ts:29 | A run of whitespace is removed entirely. |
| `Text.RemoveSpacesOfWord` | lib/ai.ts:29 | Text without whitespace is kept as it is. |
| `Text.DecimalValueOfNatToString` | lib/ai.ts:112 | `Number` of a printed non-negative integer gives that integer. |
| `Prompt.DayCount` | lib/ai.ts:111-112 | The day count always lies in 1..10. |
| `Prompt.DayCountAt` | lib/ai.ts:111-112 | When the day expression matches at `i` and at no earlier position, the day count is the number the digits at `i` spell, 3 in place of 0, capped at 10. |
| `Prompt.DayCountOfDigits` | lib/ai.ts:111-112 | A prompt of digits, spaces and "day" after a text with no match of its own and no final digit gets as many days as the digits spell, 3 in place of 0, capped at 10. |
| `Prompt.DayCountOfNumeral` | lib/ai.ts:111-112 | "n day(s)" after a text with no match of its own and no final digit ("2 friends, 5 days") gives 3 days for 0, n days below 10, and 10 days otherwise. |
| `Prompt.DayCountWithoutMatch` | lib/ai.ts:111-112 | A prompt in which the day expression matches nowhere gets 3 days. |
| `Prompt.DayCountOfHyphenatedNumeral` | lib/ai.ts:111-112 | A numeral joined to "day" by a hyphen ("5-day"), with no other digit in the prompt, gives the default of 3 days. |
| `Prompt.TotalBudget` | lib/ai.ts:120-122 | The budget is "Flexible Budget" or "₹" followed by a non-empty run of digits and commas. |
| `Prompt.BudgetFlexibleIff` | lib/ai.ts:120-122 | The budget is "Flexible Budget" exactly when no "under", optional spaces and a digit or comma occur anywhere in the prompt. |
| `Prompt.TotalBudgetAt` | lib/ai.ts:120-121 | When the budget expression matches at `i` and at no earlier position, the capture is the amount at `i`. |
| `Prompt.BudgetAmountAt` | lib/ai.ts:120-121 | "under", spaces and a maximal run of digits and commas, with no earlier match, capture that run with its commas. |
| `Prompt.TotalBudgetOfAmount` | lib/ai.ts:120-122 | A prompt "... under <amount> ..." with no "under" before ("3 days in munnar under 20,000") gets the budget "₹<amount>", commas kept verbatim. |
| `Prompt.LazyEndFirst` | lib/ai.ts:114 | The lazy `[a-zA-Z\s]+?` stops at the first position where `\s+under`, `\s+with` or `\s*$` follows, crossing only letters and spaces. |
| `Prompt.GroupFromFirst` | lib/ai.ts:114 | The capture after "in"/"to" consists of letters and spaces and holds no earlier end of the phrase. |
| `Prompt.FirstPhraseLazy` | lib/ai.ts:114 | The capture of the leftmost whole word "in" or "to" followed by spaces is letters and spaces, with no `\s+under`, `\s+with` or end of text inside it. |
| `Prompt.FirstPlaceName` | lib/ai.ts:115 | The gazetteer fallback, when it matches, is a piece of the prompt. |
| `Prompt.PlaceNamesAreLetters` | lib/ai.ts:115 | Every gazetteer name is lower-case letters. |
| `Prompt.StripUnder` | lib/ai.ts:117 | `.replace(/\s+under.*$/i, "")` keeps a prefix of the text, and changes it exactly when a `\s+under` tail occurs. |
| `Prompt.NoUnderTailInCapture` | lib/ai.ts:114-117 | A trimmed phrase capture holds no `\s+under` tail. |
| `Prompt.StripUnderKeepsDestinationText` | lib/ai.ts:114-117 | The `\s+under` removal never changes the extracted destination text. |
| `Prompt.Destination` | lib/ai.ts:114-118 | The destination is never empty, and is either "Your Destination" or text that neither starts nor ends with whitespace. |
| `Prompt.DestinationIsPromptText` | lib/ai.ts:114-118 | The destination is "Your Destination" or a piece of the lowercased prompt. |
| `Planner.DestinationVibe` | lib/ai.ts:39-48 | The category is never `hill_station`. |
| `Planner.DestinationVibeIsDecisionList` | lib/ai.ts:39-48 | The category is the one of the first keyword list, in the fixed order, that has a whole-word match in the prompt. |
| `Planner.FirstRuleVibeFirstMatch` | lib/ai.ts:39-48 | In a decision list, the first rule that matches decides. |
| `Planner.DestinationVibeGeneralIff` | lib/ai.ts:39-47 | The category is `general` exactly when no keyword of any list occurs as a whole word. |
| `Planner.VibeIgnoresDestination` | lib/ai.ts:39 | The category does not depend on the destination argument. |
| `Planner.EstimateKey` | lib/ai.ts:29 | The gazetteer key has at most 20 characters and no whitespace. |
| `Planner.EstimateKeyOfWord` | lib/ai.ts:29 | A destination without whitespace has as key its first 20 characters, lower-cased. |
| `Planner.EstimateKeyIgnoresSpaces` | lib/ai.ts:29 | Whitespace inside a destination does not change its key ("new delhi" and "newdelhi" share one). |
| `Planner.TravelBreakdownFor` | lib/ai.ts:28-35 | The estimate is one of the table's entries or the default one. |
| `Planner.TravelBreakdownFirstFit` | lib/ai.ts:28-35 | The estimate is that of the first non-default key, in declaration order, that contains the key or is contained in it, and the default entry when none does. |
| `Planner.Stops` | lib/ai.ts:58-89 | A template row becomes an activity with the row's time, place, description, cost and photo flag, and the map query "<destination><suffix>". |
| `Planner.ActivitiesFor` | lib/ai.ts:51-101 | Religious, mountain, beach and city days have 5 activities, every other category 4, and each map query starts with the destination. |
| `Planner.GeneralDay` | lib/ai.ts:92-97 | The general template has 4 activities whose map queries start with the destination. |
| `Planner.Itinerary` | lib/ai.ts:127-143 | There are `n` days; day `i` is numbered `i + 1`, has its category's title for that number, and the shared activity list. |
| `Planner.TripOf` | lib/ai.ts:145-153 | The trip carries the id, timestamp, prompt and budget given, the title "<n>-day trip to <destination>", the destination's estimate, and the itinerary. |
| `Planner.GenerateTrip` | lib/ai.ts:107-156 | The generated trip keeps the given id, timestamp and prompt unchanged and has 1 to 10 days. |
| `Planner.GenerateTripDays` | lib/ai.ts:111-149 | The trip has as many days as the day count, numbered 1, 2, …, and the title "<n>-day trip to <destination>". |
| `Planner.GenerateTripActivities` | lib/ai.ts:124-141 | Every day gets the same 4 or 5 activities, and each map query starts with the destination. |
| `Planner.GenerateTripCosts` | lib/ai.ts:120-151 | The trip's budget is the one read from the prompt and its estimate that of the destination. |
| `Normalizer.StringOr` | lib/parser.ts:23-26 | `String(v ?? d)` is `d` for a missing or null value and the string itself for a string. |
| `Normalizer.NumberOfString` | lib/parser.ts:39 | `Number` of a blank string is 0. |
| `Normalizer.DayNumber` | lib/parser.ts:39 | A missing or null day is 0, and a number is kept. |
| `Normalizer.DayNumberOfNumeral` | lib/parser.ts:39 | A day given as a decimal string is that number. |
| `Normalizer.DayNumberOfText` | lib/parser.ts:39 | A day given as a word is NaN, so 0. |
| `Normalizer.CoerceActivity` | lib/parser.ts:20-28 | An activity never has a photo flag; its time, place, description and cost are the fields printed as strings, "" when missing or null; its map query falls back to the place when missing or null. |
| `Normalizer.MapQueryFallsBackToPlace` | lib/parser.ts:27 | An activity without a map query takes the place as its map query. |
| `Normalizer.PlaceOnlyActivity` | lib/parser.ts:22-28 | `{place: X}` becomes an activity with place and map query X and every other text field "". |
| `Normalizer.MapRecords` | lib/parser.ts:19-30 | Mapping and filtering never lengthens the list. |
| `Normalizer.MapRecordsAppend` | lib/parser.ts:19-47 | The filter works element by element, so it keeps the order of the survivors. |
| `Normalizer.MapRecordsCount` | lib/parser.ts:36-47 | One output element per record element. |
| `Normalizer.MapRecordsOfRecords` | lib/parser.ts:36-47 | When every element is a record, each is coerced in place. |
| `Normalizer.MapRecordsSingle` | lib/parser.ts:21-38 | A non-record element is dropped, and a record element kept. |
| `Normalizer.CoerceDay` | lib/parser.ts:37-45 | A day's number comes from `day`; its title is the `title` field printed as a string, or the default title for its number when missing or null; its activities come from `activities`. |
| `Normalizer.DefaultTitleShape` | lib/parser.ts:43 | A missing title becomes "Day n", or "Day" when n is 0. |
| `Normalizer.DayOneTitle` | lib/parser.ts:43 | The default title of day 1 is "Day 1". |
| `Normalizer.TrimOfTrimmed` | lib/parser.ts:43 | Trimming text that neither starts nor ends with whitespace keeps it. |
| `Normalizer.PlaceOnlyDay` | lib/parser.ts:37-45 | `{day: 1, activities: [{place: X}]}` becomes day 1 titled "Day 1" with the one activity. |
| `Normalizer.TextOr` | lib/parser.ts:75-76 | The value if it is truthy, else the fallback: a non-empty string value comes back as it is, and any other result is the fallback. |
| `Normalizer.Normalize` | lib/parser.ts:50-81 | The trip keeps the prompt, id and timestamp given, has no estimate and a non-empty title; a non-record gives "Untitled Trip", "" and no days; a record's title is its `tripTitle` or "Untitled Trip", its budget its `totalBudget` or "", and its days come from its `days` field. |
| `Normalizer.NormalizeArray` | lib/parser.ts:4-78 | An array counts as a record but has no fields, so it gives the untitled trip without days. |
| `Normalizer.CoerceRenderedActivity` | lib/parser.ts:16-31 | An activity without a photo flag, written out as JSON, is coerced back to itself. |
| `Normalizer.CoerceRenderedDay` | lib/parser.ts:33-48 | A day written out as JSON is coerced back to itself. |
| `Normalizer.NormalizeRenderedTrip` | lib/parser.ts:50-81 | A titled trip without estimate or photo flags, written out as JSON, normalises back to itself. |
| `Normalizer.PlaceOnlyTrip` | lib/parser.ts:50-81 | `{days: [{day: 1, activities: [{place: X}]}]}` gives "Untitled Trip", budget "", and one day "Day 1" whose activity has map query X. |
| `TripState.Patch` | store/tripStore.ts:41 | `{...activity, ...patch}`: each field the patch sets overrides, the others are kept. |
| `TripState.PatchSetsItsFields` | store/tripStore.ts:41 | The empty patch changes nothing, and applying a patch twice is applying it once. |
| `TripState.UpdateActivityShape` | store/tripStore.ts:38-44 | The edit keeps the number of days, every day's number, title and activity count, and changes only the activity at the index in days with the given number. |
| `TripState.UpdateActivityOutOfRange` | store/tripStore.ts:38-44 | An index outside the matching days' activities changes nothing. |
| `TripState.ReplaceDayShape` | store/tripStore.ts:59-61 | The days numbered `d` become the new day, whatever its own number, and the others stay. |
| `TripState.ReplaceDayIdempotent` | store/tripStore.ts:59-61 | Replacing a day by one with the same number twice is replacing it once. |
| `TripState.ReplaceAbsentDay` | store/tripStore.ts:59-61 | Replacing a number no day carries changes nothing. |
| `TripState.TripSlice.constructor` | store/tripStore.ts:23-26 | The slice starts without a trip, not loading and without an error. |
| `TripState.TripSlice.SetTrip` | store/tripStore.ts:27-30 | The trip is persisted, then shown, and the error cleared; loading is untouched. |
| `TripState.TripSlice.ClearTrip` | store/tripStore.ts:31 | Only the current trip changes, to none. |
| `TripState.TripSlice.SetLoading` | store/tripStore.ts:32 | Only the loading flag changes. |
| `TripState.TripSlice.SetError` | store/tripStore.ts:33 | Only the error changes. |
| `TripState.TripSlice.UpdateActivity` | store/tripStore.ts:34-54 | Without a current trip nothing changes and nothing is persisted; otherwise the trip with the activity patched is persisted and shown, and the store holds exactly one entry with its id. |
| `TripState.TripSlice.ReplaceDay` | store/tripStore.ts:55-71 | Without a current trip nothing changes and nothing is persisted; otherwise the trip with the day replaced is persisted and shown, and the store holds exactly one entry with its id. |
| `HistoryState.RemoveFirstIdAtIndex` | store/historyStore.ts:44-52 | Removing the first trip with the id is `slice(0, i) ++ slice(i + 1)` at the index `findIndex` returns, and no change when it returns -1. |
| `HistoryState.RemoveFirstIdCount` | store/historyStore.ts:44-52 | The list loses one entry when the id is present and is unchanged when it is absent. |
| `HistoryState.RemoveFirstIdMembers` | store/historyStore.ts:44-52 | No trip is added, and every trip without the id is kept. |
| `HistoryState.MoveToTopShape` | store/historyStore.ts:44-56 | When the list holds the trip's id at most once, the trip ends up first with its id once, and the length is unchanged when the id was present and grows by one when it was new. A list holding the id twice (as a page walk over tied timestamps can produce) keeps the second copy. |
| `HistoryState.MoveToTopDistinct` | store/historyStore.ts:44-56 | A list without repeated ids keeps that property. |
| `HistoryState.MoveToTopIdempotent` | store/historyStore.ts:44-56 | Adding the trip that is already on top changes nothing. |
| `HistoryState.HistorySlice.constructor` | store/historyStore.ts:22-26 | The history starts empty, with more to load, no cursor and no fetch running. |
| `HistoryState.HistorySlice.SetInitialPage` | store/historyStore.ts:28-33 | The page replaces the list; the cursor is stored, and more pages remain exactly when it is a non-empty string. |
| `HistoryState.HistorySlice.AppendPage` | store/historyStore.ts:35-40 | The page goes after the loaded trips, with the same cursor rule. |
| `HistoryState.HistorySlice.AddTripToTop` | store/historyStore.ts:42-57 | The list becomes the trip followed by the others without the earlier entry of its id; nothing else changes. |
| `HistoryState.HistorySlice.ResetHistory` | store/historyStore.ts:59-64 | Back to the empty list with more to load and no cursor; the fetch flag stays. |
| `HistoryState.HistorySlice.SetIsFetching` | store/historyStore.ts:66 | Only the fetch flag changes. |
| `TripTypes.IndexOfIdFirst` | store/historyStore.ts:44 | `findIndex(t.id === id)` is the first index with the id, or -1 exactly when none has it. |
| `TripTypes.CountIdZero` | lib/pagination.ts:49 | No entry carries an id exactly when its count is zero. |

## Left out

- `JSON.parse`, `JSON.stringify` and `localStorage` are not modelled as text. The slot holds what parsing its text gives: nothing, unparsable text (which stands also for the empty string), a non-array value, or an array of elements. An element is a non-record, or a record whose checked fields are strings, an array of days, or something else.
- LocalStore.IsTripEntry: the code's check (lib/pagination.ts:23-32) looks only at `Array.isArray(item.days)` and never at `prompt` or `travelBreakdown`. A stored entry whose `days` array holds non-day elements (`[42]`), whose `prompt` is missing or not a string, or whose `travelBreakdown` is not an estimate passes that check and is returned by the code; such an entry is outside `RawEntry`, because a `Trip` cannot hold those values, so the model promises nothing about it.
- LocalStore.TripStorage.Persist: `localStorage.setItem` (lib/pagination.ts:52) is assumed never to throw. A quota or security error would propagate out of `persistTripToStorage` and out of `setTrip`, `updateActivity` and `replaceDay` (store/tripStore.ts:28, 51, 68) before the state is updated; the model's persist always succeeds.
- `uuidv4()` and `new Date().toISOString()` are parameters (`id`, `now`) of `Planner.GenerateTrip` and `Normalizer.Normalize`. Timestamps are opaque strings compared by `<`, as in the code.
- `safeParseJson` (lib/parser.ts:8-14) only wraps `JSON.parse` and is not modelled.
- The `async` wrapper of `generateTrip` never suspends and is not modelled.
- `toLowerCase` and the case-insensitive flag are ASCII-only here. No Unicode case mapping is modelled.
- Strings are sequences of Unicode scalar values, whereas JavaScript strings are sequences of UTF-16 code units. They agree for text within the Basic Multilingual Plane. Outside it they differ: `Text.StrLess` orders a character above U+FFFF after U+FFFF, where JavaScript's `<` compares its leading surrogate and orders it before U+E000–U+FFFF; and `Text.Prefix` counts such a character as one where `slice(0, 20)` counts two code units.
- Normalizer.NumberOfString: `Number` is modelled for optionally signed decimal integers, with surrounding whitespace and the empty string as 0. Fractions, exponents, hexadecimal and `Infinity` are treated as NaN, because floating point is not modelled. JSON numbers are integers (`JNumber(n: int)`).
- Normalizer.Normalize: requires that `tripTitle` and `totalBudget`, when present, are strings or falsy values. A truthy value of another type would be passed through `||` uncoerced into a string field of `Trip`, which the `Trip` type cannot hold.
- Normalizer.CoerceActivity: an object's keys map to values. A key explicitly holding `undefined` is not distinguished from a missing key.
- TripState.Patch: a patch key present with the value `undefined` would overwrite the field with `undefined` in the code. The model's patch either sets a field or leaves it.
- Zustand's `set`, subscriptions and re-rendering are not modelled. Each store action is a method that updates the fields directly.
- The React pages and components (`app/`, `components/`) are not part of this model, including the budget sum in components/BudgetPanel.tsx, which relies on floating-point `Number`.
