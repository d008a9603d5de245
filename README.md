# Prism journal: a verified model of the record store, heatmap, mood tables, prompt builder and onboarding wizard

Prism is a React Native journaling app. This project models five parts of it in Dafny and proves what they promise.

- **The local record store.** It keeps a task list, where a task is either a plain to-do with a `completed` flag or a habit with a sorted list of completion dates. It also keeps a date→mood map, a date→journal map, a change-version counter and a first-launch flag. The model is the class `Storage.Store`. Each JSON slot is an abstract `Raw` value: `Absent`, `Malformed` or `Parsed(v)`. Reads fall back to an empty value when the data is missing or unreadable. Writes are methods whose `ensures` give the whole new state. The per-record transforms are functions with lemmas beside them: replace by id, filter by id, and the habit toggle.
- **The contribution heatmap.** It widens a date range to whole Sunday–Saturday weeks, lays it out as seven-cell columns, picks a colour for each count and labels the columns where the month changes. Days are day numbers counted from 1970-01-01, and months are integers.
- **The mood tables.** Each mood 1–5 has an emoji and a colour, with fallbacks for any other value.
- **The reflection prompt.** It is a fixed preamble, the user's message, optional mood, journal and tasks lines, and a closing cue.
- **The onboarding survey.** It is a two-step wizard, modelled as the class `Survey.SurveyWizard`, together with the rule for what finishing it saves.

`Text` models the JavaScript string and number operations these parts rely on: `String(n)`, `parseInt`, `trim`, `padStart`, and the default `Array.prototype.sort` order. `Optional` holds `Option`, which stands for `undefined` and `null`.

The version counter is stored as text and read back with `parseInt`. When that text does not parse, the reading is `NaN` (`None` in the model). A bump then stores `"NaN"`, so the counter stays `NaN` from then on. `Storage.VersionBumpAddsOne` states this.

`setMoodForDate` confirms its write by reading the store again after a 100 ms pause. The model has no pause. Instead the parameter `landed` of `Storage.Store.SetMoodForDate` says whether the written object is what the read-back sees.

## Model

| member | source | states |
|---|---|---|
| Text.NatToStringRoundTrip | utils/storage.ts:42-43 | The decimal numeral `String(n)` produces for a natural number reads back as `n`. |
| Text.IntToString | utils/storage.ts:61 | `String(n)` is non-empty, starts with `-` exactly for negative numbers and is all digits otherwise. |
| Text.ParseIntRoundTrip | utils/storage.ts:50-61 | `parseInt(String(n)) == n` for every integer, so a stored version reads back as what was written. |
| Text.ParseInt | utils/storage.ts:50 | `parseInt` of blank text is `NaN`, and a numeral of digits only reads as its decimal value. |
| Text.ParseIntOfNonNumeralIsNaN | utils/storage.ts:50-61 | Text whose first character after white space is neither a digit nor a sign (a letter, say, as in the `"NaN"` a bump of an unreadable version stores) parses to `NaN`. |
| Text.Trim | utils/prompts.ts:47-52 | `trim` returns a slice of its input; everything cut off before and after it is white space. |
| Text.TrimIsEmptyIffBlank | utils/prompts.ts:47-52 | `s.trim()` is empty exactly when `s` is all white space; otherwise it neither starts nor ends with white space. |
| Text.PadStart | utils/storage.ts:42-43 | `padStart` reaches the target length, keeps the text as a suffix and fills the front with the fill character. |
| Text.SortStrings | utils/storage.ts:152-155 | `sort()` with no comparator returns a permutation of its input, ordered by the default string order. |
| Text.SortedUnique | utils/storage.ts:152-155 | Two sorted lists with the same elements are equal, so the sorted result is determined by its contents. |
| Text.StrLeTransitive | utils/storage.ts:155 | The default string order is transitive. |
| Text.StrLeTotal | utils/storage.ts:155 | Any two strings are comparable under the default order. |
| Storage.MoodName | utils/storage.ts:32-38 | Moods 1–5 are named Red, Purple, Blue, Green and Yellow; other values have no name. |
| Storage.Pad2 | utils/storage.ts:42-43 | A month or day becomes exactly two digits whose value is that number. |
| Storage.FormatDateLocal | utils/storage.ts:40-45 | The text is the year's numeral, a dash, two digits, a dash and two digits. |
| Storage.FormatDateLocalRoundTrip | utils/storage.ts:40-45 | The year, month and day read back from the formatted text are the date's own, so formatting loses nothing. |
| Storage.FormatDateLocalShape | utils/storage.ts:40-45 | For a four-digit year the text is `YYYY-MM-DD`: ten characters, dashes at positions 4 and 7, digits elsewhere. |
| Storage.LoadTasks | utils/storage.ts:67-76 | A stored list that parsed is returned as it is; a missing or malformed slot gives `[]`. |
| Storage.ObjectOrEmpty | utils/storage.ts:204-222 | The object a mood or journal write starts from is the parsed object as it is, or `{}` when the data is missing, malformed or not an object. |
| Storage.LookupDate | utils/storage.ts:168-198 | A date's mood or journal entry is found exactly when the slot parsed and holds that date; otherwise the result is `undefined`. |
| Storage.MoodColorsOrDefault | utils/storage.ts:392-400 | The stored palette when it parses, the default palette otherwise. |
| Storage.ReadVersion | utils/storage.ts:47-55 | A missing version key reads as 0. |
| Storage.EmptyVersionReadsZero | utils/storage.ts:50 | An empty version text reads as 0, the same as a missing one. |
| Storage.VersionBumpAddsOne | utils/storage.ts:57-65 | After a bump, a readable version reads exactly one higher, and an unreadable one stays unreadable. |
| Storage.ReplaceById | utils/storage.ts:110-116 | Same length and same ids position by position. Every task with the id becomes the update, and every other task is unchanged. |
| Storage.ReplaceUnknownIdIsIdentity | utils/storage.ts:110-116 | Updating with an id no task has leaves the list as it was. |
| Storage.RemoveById | utils/storage.ts:118-122 | The result loses exactly the tasks with the id. It keeps every other task and contains nothing new. |
| Storage.RemoveByIdDistributes | utils/storage.ts:118-122 | Filtering distributes over concatenation, so the tasks that remain keep their order. |
| Storage.RemoveUnknownIdIsIdentity | utils/storage.ts:118-122 | Deleting an id no task has leaves the list as it was. |
| Storage.DeleteUndoesAdd | utils/storage.ts:88-122 | Deleting a task just added under a fresh id gives back the list from before the add. |
| Storage.FindById | utils/storage.ts:129-134 | `find` returns nothing exactly when no task has the id; otherwise it returns the first task with it. |
| Storage.RemoveDate | utils/storage.ts:145-147 | Filtering out a day removes every occurrence of that day and keeps every other date with its multiplicity. |
| Storage.RemoveDateKeepsOrder | utils/storage.ts:145-147 | Filtering a sorted completion list leaves it sorted. |
| Storage.ToggleHabitDates | utils/storage.ts:138-157 | The day's membership flips and every other date's membership stays. Sortedness and freedom from duplicates are kept. A record without a list gets `[day]`. |
| Storage.HabitCompletionInsertsInPlace | utils/storage.ts:149-156 | Completing a new day inserts it at its sorted place and leaves the other dates in order. |
| Storage.HabitToggleTwiceRestores | utils/storage.ts:138-157 | From a sorted, duplicate-free list, toggling the same day twice restores the list. |
| Storage.NewTask | utils/storage.ts:94-103 | The new record carries the given id, text, description, date and kind, is not completed, and has an empty completion list exactly when it is a habit (none otherwise). |
| Storage.ToggledTask | utils/storage.ts:136-163 | A toggle keeps the task's id and kind. A plain task has `completed` flipped and nothing else changed; a habit has its completion list replaced by the toggled list and nothing else changed. |
| Storage.ToggleTwiceRestoresTask | utils/storage.ts:136-163 | Toggling twice restores a plain task, and a habit whose list is sorted and free of duplicates. |
| Storage.ResolveDay | utils/storage.ts:139 | An empty `currentDate` falls back to today's formatted date; any other date is used as given. |
| Storage.Store.GetMoodForDate | utils/storage.ts:168-198 | A date's mood is found exactly when the mood ledger parsed and holds that date, and it is the stored mood; otherwise `undefined`. |
| Storage.Store.GetJournalEntryForDate | utils/storage.ts:332-360 | A date's journal entry is found exactly when the journal parsed and holds that date, and it is the stored entry; otherwise `undefined`. |
| Storage.Store.GetMoodColors | utils/storage.ts:392-400 | The stored palette when it parses, the default palette when it is missing or does not parse. |
| Storage.Store.CheckFirstLaunch | utils/storage.ts:402-410 | True exactly while the first-launch key is absent. |
| Storage.Store.SetItem | app/survey.tsx:77-84 | A plain-text write sets one key and changes nothing else. |
| Storage.Store.SetFirstLaunchCompleted | utils/storage.ts:412-418 | Writes `"true"` under the flag key, after which `checkFirstLaunch` is false. Nothing else changes. |
| Storage.Store.UpdateTaskDataVersion | utils/storage.ts:57-65 | Stores `String(current + 1)` and moves the version reading by the bump. Nothing else changes. |
| Storage.Store.SaveTasks | utils/storage.ts:78-86 | The list reads back as written and the version is bumped once. |
| Storage.Store.AddTask | utils/storage.ts:88-108 | The task list gains exactly the new task at the end. The new task is not completed and has `[]` dates exactly when it is a habit. The version is bumped. |
| Storage.Store.UpdateTask | utils/storage.ts:110-116 | The list becomes `ReplaceById` of the old one and the version is bumped, even when no id matches. |
| Storage.Store.DeleteTask | utils/storage.ts:118-122 | The list becomes `RemoveById` of the old one and the version is bumped. |
| Storage.Store.ToggleTaskCompletion | utils/storage.ts:124-166 | An unknown id writes nothing and leaves the version alone. Otherwise the first matching task is toggled on the resolved day, written over every task with its id, and the version is bumped. |
| Storage.Store.SetMoodForDate | utils/storage.ts:200-267 | The mood is set on the read (or empty) object and every other date is kept. It returns `mood`, and bumps the version, exactly when the read-back shows `mood`; otherwise it returns `undefined` and leaves the counter alone. |
| Storage.Store.GetAllMoodsAsArray | utils/storage.ts:269-300 | One entry per stored date, no date twice, each with its stored mood; unreadable data gives `[]`. |
| Storage.Store.SaveJournalEntry | utils/storage.ts:302-330 | The entry, even `""`, reads back for its date. Every other date reads as before, and the version is bumped. |
| Heatmap.Weekday | components/CustomHeatmap.tsx:80-86 | The day of the week is between 0 (Sunday) and 6. |
| Heatmap.WeekdayShift | components/CustomHeatmap.tsx:112 | Moving on `k` days moves the weekday on by `k` modulo 7. |
| Heatmap.ResolvedEmptyColor | components/CustomHeatmap.tsx:39 | A missing or empty empty-colour falls back to the theme background. |
| Heatmap.PaletteIndex | components/CustomHeatmap.tsx:46 | The clamped index is within the palette and is at least 1 when the palette has two entries or more. It equals the count for in-range counts and the last slot for large ones. |
| Heatmap.PaletteIndexMonotone | components/CustomHeatmap.tsx:46 | A larger count never gets a lower palette slot. |
| Heatmap.GetColor | components/CustomHeatmap.tsx:41-59 | A zero count gets the empty colour with or without a palette. Otherwise the colour is the clamped palette entry, or one of the three default shades. |
| Heatmap.DefaultShades | components/CustomHeatmap.tsx:48-57 | Without a palette, 1–2 are light, 3–5 medium, and every other non-zero count (negatives included) is dark. |
| Heatmap.DataMap | components/CustomHeatmap.tsx:71-74 | Each day maps to a data point for that day. |
| Heatmap.DataMapKeepsLastPoint | components/CustomHeatmap.tsx:71-74 | Every day with data is in the map, each value comes from the data, and a day holds its last data point. |
| Heatmap.FirstSunday | components/CustomHeatmap.tsx:79-82 | The widened start is the Sunday on or before the start. |
| Heatmap.LastSaturday | components/CustomHeatmap.tsx:84-87 | The widened end is the Saturday on or after the end. |
| Heatmap.WholeWeeks | components/CustomHeatmap.tsx:115-120 | A Sunday-to-Saturday range is a whole number of weeks, so the final padding loop never runs. |
| Heatmap.GenerateGithubHeatmapLayout | components/CustomHeatmap.tsx:61-123 | An empty start or end gives no columns. Otherwise there are `WeekCount` columns of seven cells, and cell `d` of column `w` is the day `firstSunday + 7w + d` with its data or a zero count. |
| Heatmap.LayoutListsEachDayOnce | components/CustomHeatmap.tsx:97-113 | Read column by column, the cells list every day of the widened range once, in ascending order, each with its data. |
| Heatmap.LayoutWeeksAreSundayToSaturday | components/CustomHeatmap.tsx:79-110 | Every column runs from a Sunday to a Saturday. The first column holds the start and the last holds the end. |
| Heatmap.FirstPresentIndex | components/CustomHeatmap.tsx:133 | `find` stops at the first cell that is not a placeholder. |
| Heatmap.LabelsFrom | components/CustomHeatmap.tsx:127-146 | The labels `getMonthLabels` emits from column `w` on: at most one per column. |
| Heatmap.NoLabelsIffNoNewMonth | components/CustomHeatmap.tsx:130-144 | No label is emitted exactly when no column shows a month other than the current one. |
| Heatmap.LabelsMarkMonthChanges | components/CustomHeatmap.tsx:127-146 | Each label names its column's month, columns strictly increase, and neighbouring labels differ in month. |
| Heatmap.GetMonthLabels | components/CustomHeatmap.tsx:127-146 | The loop emits exactly the labels `LabelsFrom` defines, and none for an empty layout. |
| Heatmap.LabelsCoverEveryColumn | components/CustomHeatmap.tsx:132-144 | At every column with a real day, the month of the last label at or before it is that column's month. |
| Heatmap.LayoutColumnMonth | components/CustomHeatmap.tsx:133-137 | In a generated layout, a column's label month is the month of its Sunday. |
| MoodConfig.GetMoodEmoji | constants/MoodConfig.ts:14-19 | Moods 1–5 get their table emoji; every other value gets `""`, and only those do. |
| MoodConfig.GetMoodColor | constants/MoodConfig.ts:22-27 | Moods 1–5 get `moodColors[v]`. The no-data colour goes to every other value and to no mood. |
| MoodConfig.GetMoodButtonColor | constants/MoodConfig.ts:30-35 | A selected button shows its mood colour; the colour is `transparent` exactly when not selected. |
| MoodConfig.MoodsAreDistinguishable | constants/MoodConfig.ts:2-11 | Different moods have different emoji and different colours. |
| Prompts.MessageLine | utils/prompts.ts:36-37 | The message line is `User's message: "`, the user's message verbatim, then a closing `"` and a newline. |
| Prompts.Opening | utils/prompts.ts:22-37 | Every prompt opens with the fixed preamble followed by the message line. |
| Prompts.MoodSection | utils/prompts.ts:40-45 | A colour name gives the colour line, suppressing the number. Failing that, a number gives `User's mood today: n/5.` With neither there is no line. |
| Prompts.JournalSection | utils/prompts.ts:47-49 | The journal line appears exactly when the journal is non-null and not blank, and it quotes the journal untrimmed. |
| Prompts.TasksSection | utils/prompts.ts:50-52 | The tasks line appears exactly when the tasks text is non-null and not blank. |
| Prompts.GenerateAiReflectionPrompt | utils/prompts.ts:18-57 | The prompt starts with the opening and ends with `\nReflection:`. Between them come the mood, journal and tasks lines in that order. |
| Prompts.BlankSectionsAreOmitted | utils/prompts.ts:47-52 | With a blank or missing journal and tasks text, only the mood line sits between the opening and the cue. |
| Survey.Complete | app/survey.tsx:72-96 | The trimmed nickname is saved if not blank, `index + 1` if a colour was chosen, and then the first-launch flag. A failed nickname or colour write stops the rest and no navigation happens. A failed flag write is swallowed. No other key changes. |
| Survey.CompletionReadsBack | app/survey.tsx:76-87 | After a clean completion the nickname is stored without surrounding white space, the colour number parses back to the chosen index plus one, and the flag is set. |
| Survey.SurveyWizard.constructor | app/survey.tsx:29-50 | The wizard opens at step 1 with an empty nickname and no colour chosen, offering the saved or default palette. |
| Survey.SurveyWizard.SetNickname | app/survey.tsx:118-124 | Typing on step 1 sets the nickname, at most 20 characters, and nothing else. |
| Survey.SurveyWizard.SelectMoodColor | app/survey.tsx:140-152 | Tapping an offered colour on step 2 selects its index and nothing else. |
| Survey.SurveyWizard.HandleBack | app/survey.tsx:65-70 | Back decrements a step above 1, does nothing on step 1, and keeps the step in 1–2. |
| Survey.SurveyWizard.HandleNext | app/survey.tsx:52-63 | A blank nickname on step 1 leaves everything unchanged. Before the last step, Next advances by exactly one. On the last step it runs completion and saves exactly what `Complete` says. |
| Survey.SurveyWizard.HandleSurveyCompletion | app/survey.tsx:72-96 | The store's texts become `Complete`'s. `loading` ends false whether or not a write threw, and the wizard's answers are unchanged. |

## Left out

- Asynchrony and concurrency. Every store operation runs to completion before the next one starts, so read-modify-write races between overlapping calls are not modelled.
- Store failures inside `utils/storage.ts`. A throwing `getItem` or `setItem` is caught and logged there. The model's store writes always succeed, except in the survey, where the parameter `failing` chooses the write that throws.
- JSON. A slot is `Absent`, `Malformed` or `Parsed(value)`. "Parsed but not an object" (an array, `null` or a number under the mood or journal key) behaves like `Malformed`, which is how utils/storage.ts treats it. A task slot holding valid JSON that is not an array is not modelled.
- Storage.Store.GetMoodColors: a palette slot holding valid JSON that is not an array (`null`, say) is returned as it is by `getMoodColors` (utils/storage.ts:395); the model reads it as `Malformed` and returns the default palette.
- Storage.ReadVersion: only integer texts are modelled. `parseInt`'s hexadecimal `0x` prefix and its handling of numbers beyond 2^53 are not. Versions are unbounded integers.
- Storage.Store.GetAllMoodsAsArray: the entries come in an unspecified order, not the insertion order of `Object.keys`. Keys that look like array indices, which JavaScript enumerates first, are not modelled either.
- Storage.Store.SetMoodForDate: the 100 ms pause before the read-back is replaced by the parameter `landed`. Only the two outcomes "the write is visible" and "the store still holds the old object" are modelled.
- Storage.LookupDate: a mood object key that is also a property of `Object.prototype` (such as `"toString"`) is not modelled.
- The clock and uuid generation. `addTask` and `toggleTaskCompletion` take the new id and today's date as parameters.
- Time zones. The heatmap works on day numbers, with weekday `(n + 4) % 7` and the proleptic Gregorian month. The component parses `YYYY-MM-DD` as UTC midnight and writes cells back with `toISOString`, but reads `getDay`, steps with `setDate` and names months with `toLocaleString` in local time. The model agrees with it when the local offset is zero or east of UTC and stays the same across the range (UTC, or Japan, say). West of UTC, UTC midnight is still the previous local day, so the weekday is the previous day's: columns run from a Monday date to a Sunday date, and a column whose first date is the 1st is labelled with the previous month. A change of offset inside the range (daylight saving) can shift the written dates by one. Data points are given by day number; a date text that does not parse (`Invalid Date`) is not modelled.
- Heatmap.MonthOfDay has no contract. It computes the month of a day number, standing in for `toLocaleString(..., { month: "short" })`, which compares month names the same way.
- Heatmap.GenerateGithubHeatmapLayout: the leading placeholder loop and the trailing padding loop are not written as statements. `FirstSunday` proves the first loop would run zero times, and `WholeWeeks` proves the second would too.
- Text: strings are sequences of Unicode code points. JavaScript's default `sort` order and `maxLength` count UTF-16 code units, and the two differ only for characters outside the Basic Multilingual Plane.
- Prompts.MoodSection takes the mood's colour name as given. The chat screen that looks it up in `moodNamesMap` (`Storage.MoodName` here) is not part of this model.
- Prompts.MoodSection: only integer moods are printed. `${mood}` for a fractional number is not modelled.
- Chat transcript save/load, theme save/load, `saveMoodColors` and `getAllTasks` (the same as `loadTasks`) are plain get/set wrappers and are left out.
- Rendering, styling, navigation (`router.replace`), alerts, `Keyboard.dismiss` and the progress-bar arithmetic are left out, and so are the other modules of the app: the subscription and notification wrappers, the Supabase client, the random journal prompts and the UI components.
